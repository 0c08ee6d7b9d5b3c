/** compress and decompress (src/utils/compress.cpp): an LZ4 block behind a little-endian 32-bit size. */
module Compress {
  import opened Bytes
  import opened Lz4Format
  import opened Lz4Encoder
  import opened Lz4Decoder

  const TWO_31: nat := 0x8000_0000
  const TWO_32: nat := 0x1_0000_0000

  /** A size handed over as a 32-bit int. */
  function ToInt(n: nat): int
  {
    var low := n % TWO_32;
    if low < TWO_31 then low else low - TWO_32
  }

  /** LZ4_compressBound: zero for unsupported sizes, negative ones among them. */
  function CompressBound(size: int): nat
  {
    if 0 <= size <= MAX_INPUT_SIZE then Bound(size) else 0
  }

  function Low32(n: nat): Data
    requires n < TWO_32
  {
    [n % 0x100, n / 0x100 % 0x100, n / 0x1_0000 % 0x100, n / 0x100_0000]
  }

  lemma Low32RoundTrip(n: nat, tail: Data)
    requires n < TWO_32
    ensures Read32(Low32(n) + tail, 0) == n
  {
    Digits(n);
    Low32Bytes(n, tail, Low32(n) + tail);
  }

  lemma Digits(n: nat)
    ensures n == n % 0x100 + 0x100 * (n / 0x100 % 0x100) + 0x1_0000 * (n / 0x1_0000 % 0x100) +
            0x100_0000 * (n / 0x100_0000)
  {
    assert n / 0x1_0000 == n / 0x100 / 0x100;
    assert n / 0x100_0000 == n / 0x1_0000 / 0x100;
  }

  lemma Low32Bytes(n: nat, tail: Data, all: Data)
    requires n < TWO_32 && all == Low32(n) + tail
    ensures all[0] == n % 0x100 && all[1] == n / 0x100 % 0x100 && all[2] == n / 0x1_0000 % 0x100 &&
            all[3] == n / 0x100_0000
  {
  }

  /** How much of a value of this size is encoded; nothing at all is written for unsupported sizes. */
  function Supported(n: nat): bool { n > 0 && n % TWO_32 <= MAX_INPUT_SIZE }

  /** The part of a value that its 32-bit size covers. */
  function Kept(value: Data): Data { value[..|value| % TWO_32] }

  /** A size and a well formed block for the part of the value that the size says; one byte over and over becomes 255
      times shorter. */
  ghost predicate BlockFor(value: Data, result: Data, b: Block)
  {
    var n := |value| % TWO_32;
    result == Low32(n) + EncodeBlock(b) && BlockOk(b) && ExpandBlock(b) == Kept(value) &&
    |result| <= 4 + Bound(n) && (Uniform(Kept(value)) ==> |result| <= 4 + n / 255 + 11)
  }

  /** The result of compress; which of the many blocks is written is left to the encoder. */
  ghost predicate Compressed(value: Data, result: Data)
  {
    if !Supported(|value|) then result == [] else exists b :: BlockFor(value, result, b)
  }

  method CompressValue(value: Data) returns (result: Data)
    ensures Compressed(value, result)
  {
    hide BlockOk; hide EncodeBlock; hide ExpandBlock; hide Bound; hide Uniform;
    if value == [] { return []; }
    var bound := CompressBound(ToInt(|value|));
    if bound == 0 { BoundPositive(ToInt(|value|)); return []; }
    var size: nat := ToInt(|value|);
    var dst := new byte[bound](_ => 0);
    ghost var b;
    var n;
    n, b := CompressGeneric(value[..size], dst, size < LIMIT_64K);
    EncodedNotEmpty(b);
    if n == 0 { return []; }
    result := Low32(|value| % TWO_32) + dst[..n];
    assert BlockFor(value, result, b);
  }

  lemma BoundPositive(size: int)
    ensures 0 <= size <= MAX_INPUT_SIZE ==> CompressBound(size) > 0
  {
  }

  lemma EncodedNotEmpty(b: Block)
    ensures |EncodeBlock(b)| > 0
  {
    hide EncodeSequences; hide LiteralPart; hide Token;
  }

  /** The result of decompress. A block that cannot be read leaves a buffer of the announced size. */
  ghost predicate Decompressed(value: Data, result: Data)
  {
    if |value| <= 4 then result == []
    else
      var size := Read32(value, 0);
      var read := DecodeBlock(value[4..], ToInt(size));
      if read.Some? then result == read.value else |result| == size
  }

  method DecompressValue(value: Data) returns (result: Data)
    requires |value| < 4 + TWO_31
    ensures Decompressed(value, result)
  {
    hide DecodeBlock; hide Read32;
    if |value| <= 4 { return []; }
    var size := Read32(value, 0);
    var dst := new byte[size](_ => 0);
    ToIntBelow(size);
    var n := DecompressSafe(value[4..], dst, ToInt(size));
    if n < 0 { return dst[..]; }
    result := dst[..n];
  }

  lemma ToIntBelow(n: nat)
    ensures ToInt(n) <= n
  {
  }

  /** What comes back is the part of the value that the 32-bit size covers: the whole value exactly when it is no longer
      than LZ4_MAX_INPUT_SIZE. */
  lemma RoundTrip(value: Data, compressed: Data, result: Data)
    requires Compressed(value, compressed) && Decompressed(compressed, result)
    ensures result == if Supported(|value|) then Kept(value) else []
    ensures result == value <==> |value| <= MAX_INPUT_SIZE
  {
    hide BlockOk; hide EncodeBlock; hide ExpandBlock; hide Bound; hide DecodeBlock; hide Read32; hide Low32; hide Kept;
    hide ToInt; hide Uniform;
    KeptLength(value);
    if Supported(|value|) {
      var n := |value| % TWO_32;
      var b :| BlockFor(value, compressed, b);
      EncodedNotEmpty(b);
      HeaderSize(n);
      Low32RoundTrip(n, EncodeBlock(b));
      assert compressed[4..] == EncodeBlock(b);
      DecodeEncode(b);
    }
  }

  lemma KeptLength(value: Data)
    ensures |Kept(value)| == |value| % TWO_32 && |value| % TWO_32 < TWO_32
    ensures |value| % TWO_32 <= MAX_INPUT_SIZE ==> ToInt(|value| % TWO_32) == |value| % TWO_32
    ensures Kept(value) == value <==> |value| < TWO_32
    ensures |value| < TWO_32 ==> |value| % TWO_32 == |value|
  {
    SmallMod(|value|);
  }

  lemma HeaderSize(n: nat)
    requires n < TWO_32
    ensures |Low32(n)| == 4
  {
  }

  lemma SmallMod(n: nat)
    ensures n % TWO_32 <= MAX_INPUT_SIZE ==> ToInt(n % TWO_32) == n % TWO_32
    ensures n < TWO_32 ==> n % TWO_32 == n
    ensures n % TWO_32 < TWO_32
  {
  }

  /** The same for the two methods, one after the other. */
  method CompressAndBack(value: Data) returns (result: Data)
    ensures result == value <==> |value| <= MAX_INPUT_SIZE
  {
    hide BlockOk; hide EncodeBlock; hide ExpandBlock; hide Decompressed;
    var compressed := CompressValue(value);
    BoundFits(|value| % TWO_32);
    result := DecompressValue(compressed);
    RoundTrip(value, compressed, result);
  }

  lemma BoundFits(n: nat)
    ensures n <= MAX_INPUT_SIZE ==> Bound(n) < TWO_31
  {
  }
}
