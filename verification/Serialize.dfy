/** The primitive codecs of src/utils/serialize.h: big-endian integers and length-prefixed strings,
    read back with a cursor that each reader advances past what it consumed. */
module Serialize {
  import opened Bytes

  // ----- writers -----

  /** Appends `val` to `buffer`: the loop fills the bytes from the last one and stops once the rest is zero. */
  method ToBinaryStringBigEndian(val: nat, width: nat, buffer: Data) returns (r: Data)
    requires val < Pow256(width)
    ensures r == buffer + BigEndian(val, width)
  {
    var i := width;
    var rest: nat := val;
    var field: Data := seq(width, _ => 0);
    while rest != 0 && i > 0
      invariant 0 <= i <= width && |field| == width && rest < Pow256(i)
      invariant BigEndian(val, width) == BigEndian(rest, i) + field[i..]
      invariant forall j :: 0 <= j < i ==> field[j] == 0
    {
      field := field[i - 1 := rest % 256];
      assert BigEndian(rest, i) == BigEndian(rest / 256, i - 1) + [rest % 256];
      rest := rest / 256;
      i := i - 1;
    }
    BigEndianOfZero(i);
    assert field[..i] == BigEndian(0, i);
    assert field == field[..i] + field[i..];
    r := buffer + field;
  }

  lemma {:induction false} BigEndianOfZero(width: nat)
    ensures BigEndian(0, width) == seq(width, _ => 0)
  {
    if width != 0 { BigEndianOfZero(width - 1); }
  }

  function SerInt(n: u64): (r: Data)
    ensures |r| == 8
  {
    BigEndian(n, 8)
  }

  function SerTag(c: byte): (r: Data)
    ensures |r| == 1
  {
    BigEndian(c, 1)
  }

  /** A length-prefixed string; the prefix is a size_t. */
  function SerString(s: Data): (r: Data)
    ensures |r| == 8 + |s|
  {
    SerInt(|s| % TWO_64) + s
  }

  // ----- readers -----

  /** Folds `width` bytes from `from`; the cursor does not move when the input is too short. */
  method FromBinaryStringBigEndian(raw: Data, from: nat, width: nat) returns (val: nat, endPos: nat)
    ensures from + width > |raw| ==> val == 0 && endPos == from
    ensures from + width <= |raw| ==> val == FromBigEndian(raw[from..from + width]) && endPos == from + width
  {
    if |raw| < width + from { return 0, from; }
    val := 0;
    for i := 0 to width
      invariant val == FromBigEndian(raw[from..from + i])
    {
      var s := raw[from..from + i + 1];
      assert s[..|s| - 1] == raw[from..from + i];
      val := val * 256 + raw[from + i];
    }
    endPos := from + width;
  }

  type Cursor<T> = Result<(T, nat)>

  function ReadInt(raw: Data, from: nat): Cursor<u64>
  {
    if |raw| < from + 8 then Thrown
    else
      FromBigEndianBound(raw[from..from + 8]);
      Pow256Of8();
      Returned((FromBigEndian(raw[from..from + 8]), from + 8))
  }

  function ReadTag(raw: Data, from: nat): Cursor<byte>
  {
    if |raw| < from + 1 then Thrown
    else
      assert raw[from..from + 1] == [raw[from]];
      assert FromBigEndian([raw[from]]) == raw[from] by { assert [raw[from]][..0] == []; }
      Returned((FromBigEndian(raw[from..from + 1]), from + 1))
  }

  /** A prefix that promises more bytes than there are yields what is there, and the cursor passes the end. */
  function ReadString(raw: Data, from: nat): Cursor<Data>
  {
    var (size, pos) :- ReadInt(raw, from);
    Returned((raw[pos..if pos + size <= |raw| then pos + size else |raw|], pos + size))
  }

  // ----- what was written is what is read, wherever it stands -----

  /** `part` stands in `raw` at the cursor. */
  predicate At(raw: Data, from: nat, part: Data)
  {
    from <= |raw| && part <= raw[from..]
  }

  lemma AtSplit(raw: Data, from: nat, a: Data, b: Data)
    requires At(raw, from, a + b)
    ensures At(raw, from, a) && At(raw, from + |a|, b)
  {
    assert raw[from..][|a|..] == raw[from + |a|..];
    assert a == (a + b)[..|a|] && b == (a + b)[|a|..];
  }

  lemma AtSlice(raw: Data, from: nat, part: Data)
    requires At(raw, from, part)
    ensures from + |part| <= |raw| && raw[from..from + |part|] == part
  {
  }

  lemma ReadIntAt(raw: Data, from: nat, n: u64)
    requires At(raw, from, SerInt(n))
    ensures ReadInt(raw, from) == Returned((n, from + 8))
  {
    assert raw[from..from + 8] == SerInt(n);
    Pow256Of8();
    BigEndianRoundTrip(n, 8);
  }

  lemma ReadTagAt(raw: Data, from: nat, c: byte)
    requires At(raw, from, SerTag(c))
    ensures ReadTag(raw, from) == Returned((c, from + 1))
  {
    assert raw[from..from + 1] == SerTag(c);
    assert Pow256(1) == 256;
    BigEndianRoundTrip(c, 1);
  }

  lemma ReadStringAt(raw: Data, from: nat, s: Data)
    requires |s| < TWO_64 && At(raw, from, SerString(s))
    ensures ReadString(raw, from) == Returned((s, from + 8 + |s|))
  {
    hide SerInt; hide ReadInt; hide At;
    AtSplit(raw, from, SerInt(|s|), s);
    ReadIntAt(raw, from, |s|);
    AtSlice(raw, from + 8, s);
  }

  // ----- runs of integers -----

  function SerInts(ns: seq<u64>): (r: Data)
    ensures |r| == 8 * |ns|
  {
    if ns == [] then [] else SerInt(ns[0]) + SerInts(ns[1..])
  }

  function ReadInts(raw: Data, from: nat, count: nat): (r: Cursor<seq<u64>>)
    ensures r.Returned? ==> |r.value.0| == count && r.value.1 == from + 8 * count
    decreases count
  {
    if count == 0 then Returned(([], from))
    else
      var (n, pos) :- ReadInt(raw, from);
      var (ns, end) :- ReadInts(raw, pos, count - 1);
      Returned(([n] + ns, end))
  }

  lemma {:induction false} ReadIntsAt(raw: Data, from: nat, ns: seq<u64>)
    requires At(raw, from, SerInts(ns))
    ensures ReadInts(raw, from, |ns|) == Returned((ns, from + 8 * |ns|))
    decreases ns
  {
    hide SerInt; hide ReadInt; hide At;
    if ns != [] {
      AtSplit(raw, from, SerInt(ns[0]), SerInts(ns[1..]));
      ReadIntAt(raw, from, ns[0]);
      ReadIntsAt(raw, from + 8, ns[1..]);
      assert ns == [ns[0]] + ns[1..];
    }
  }

  /** The whole string stands at position zero. */
  lemma AtStart(raw: Data)
    ensures At(raw, 0, raw)
  {
    assert raw[0..] == raw;
  }
}
