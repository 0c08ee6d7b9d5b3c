/** The append-only block file and its resumable reader (src/BlockchainRead.cpp, src/BlockSource/FileBlockSource.cpp):
    each block stands behind its size, eight bytes little-endian. */
module BlockFile {
  import opened Bytes

  const SIZE_SIZE := 8

  // ----- little-endian numbers -----

  function Little(n: nat, width: nat): (r: Data)
    ensures |r| == width
  {
    if width == 0 then [] else [n % 0x100] + Little(n / 0x100, width - 1)
  }

  function FromLittle(s: Data): nat
  {
    if s == [] then 0 else var low: nat := s[0]; low + 0x100 * FromLittle(s[1..])
  }

  lemma {:induction false} LittleRoundTrip(n: nat, width: nat)
    requires n < Pow256(width)
    ensures FromLittle(Little(n, width)) == n
    decreases width
  {
    if width > 0 {
      LittleRoundTrip(n / 0x100, width - 1);
      assert Little(n, width)[1..] == Little(n / 0x100, width - 1);
    }
  }

  // ----- writing and reading -----

  function Record(block: Data): Data { Little(|block|, SIZE_SIZE) + block }

  /** Appends a block; the position of its record is the old size. */
  method SaveBlock(file: Data, block: Data) returns (newFile: Data, pos: nat)
    ensures newFile == file + Record(block) && pos == |file|
  {
    pos := |file|;
    newFile := file + Little(|block|, SIZE_SIZE);
    newFile := newFile + block;
  }

  /** The bytes [from, to) of the block at a position: its size and the bytes, or size 0 if it is not completely there.
      The sum in the second test is a 64-bit one. */
  function BlockDump(file: Data, pos: nat, from: nat, to: nat): (nat, Data)
    requires from <= to
  {
    if pos + SIZE_SIZE > |file| then (0, [])
    else
      var size := FromLittle(file[pos..pos + SIZE_SIZE]);
      var start := pos + SIZE_SIZE;
      if |file| < (size + start) % TWO_64 || from >= size then (0, [])
      else
        var end := if to > size then size else to;
        (size, Filled(file, start + from, end - from))
  }

  /** What a read of that many bytes leaves in a zeroed buffer. */
  function Filled(file: Data, pos: nat, count: nat): (r: Data)
    ensures |r| == count
  {
    if pos + count <= |file| then file[pos..pos + count]
    else if pos <= |file| then file[pos..] + seq(pos + count - |file|, _ => 0)
    else seq(count, _ => 0)
  }

  /** The next block and the position after it; the position stays if no complete block is there. */
  function ReadNext(file: Data, pos: nat): (Data, nat)
  {
    var (size, block) := BlockDump(file, pos, 0, TWO_64 - 1);
    if size == 0 then ([], pos) else (block, pos + size + SIZE_SIZE)
  }

  // ----- whole files -----

  function Contents(blocks: seq<Data>): Data
  {
    if blocks == [] then [] else Contents(blocks[..|blocks| - 1]) + Record(blocks[|blocks| - 1])
  }

  function Position(blocks: seq<Data>, i: nat): nat
    requires i <= |blocks|
  {
    |Contents(blocks[..i])|
  }

  ghost predicate FileOk(blocks: seq<Data>, tail: Data)
  {
    (forall i :: 0 <= i < |blocks| ==> blocks[i] != []) && |Contents(blocks)| + |tail| < TWO_64
  }

  lemma {:induction false} ContentsSplit(blocks: seq<Data>, i: nat)
    requires i < |blocks|
    ensures Position(blocks, i + 1) == Position(blocks, i) + SIZE_SIZE + |blocks[i]| <= |Contents(blocks)|
    ensures Contents(blocks)[Position(blocks, i)..Position(blocks, i + 1)] == Record(blocks[i])
    decreases |blocks|
  {
    hide Little;
    var n := |blocks| - 1;
    assert blocks[..i + 1][..i] == blocks[..i];
    if i < n {
      var front := blocks[..n];
      ContentsSplit(front, i);
      assert front[..i] == blocks[..i] && front[..i + 1] == blocks[..i + 1];
      assert Contents(blocks) == Contents(front) + Record(blocks[n]);
    } else {
      assert blocks[..i + 1] == blocks;
    }
  }

  lemma SizeRead(block: Data)
    requires |block| < TWO_64
    ensures FromLittle(Little(|block|, SIZE_SIZE)) == |block|
  {
    Pow256Of8();
    LittleRoundTrip(|block|, SIZE_SIZE);
  }

  lemma SliceOfSlice(d: Data, a: nat, b: nat, from: nat, to: nat)
    requires a <= b <= |d| && from <= to <= b - a
    ensures d[a..b][from..to] == d[a + from..a + to]
  {
    var x, y := d[a..b][from..to], d[a + from..a + to];
    assert |x| == |y| && forall k :: 0 <= k < |x| ==> x[k] == d[a + from + k] == y[k];
  }

  /** Any part of a complete record's block is read as that part, cut off at the block's end; beyond it nothing is. */
  lemma DumpRecord(file: Data, pos: nat, block: Data, from: nat, to: nat)
    requires |file| < TWO_64 && pos + SIZE_SIZE + |block| <= |file| && from <= to
    requires file[pos..pos + SIZE_SIZE + |block|] == Record(block)
    ensures BlockDump(file, pos, from, to) ==
            if from < |block| then (|block|, block[from..if to < |block| then to else |block|]) else (0, [])
  {
    hide Little; hide FromLittle; hide Filled;
    var record, start := file[pos..pos + SIZE_SIZE + |block|], pos + SIZE_SIZE;
    assert file[pos..start] == record[..SIZE_SIZE] == Little(|block|, SIZE_SIZE);
    assert file[start..start + |block|] == record[SIZE_SIZE..] == block;
    SizeRead(block);
    assert (|block| + start) % TWO_64 == |block| + start;
    if from < |block| {
      var end := if to < |block| then to else |block|;
      SliceOfSlice(file, start, start + |block|, from, end);
      FilledInside(file, start + from, end - from);
      assert start + from + (end - from) == start + end;
      assert BlockDump(file, pos, from, to) == (|block|, Filled(file, start + from, end - from));
    }
  }

  lemma FilledInside(file: Data, pos: nat, count: nat)
    requires pos + count <= |file|
    ensures Filled(file, pos, count) == file[pos..pos + count]
  {
  }

  /** A complete record is read as its block, whatever stands behind it. */
  lemma ReadRecord(file: Data, pos: nat, block: Data)
    requires block != [] && |file| < TWO_64 && pos + SIZE_SIZE + |block| <= |file|
    requires file[pos..pos + SIZE_SIZE + |block|] == Record(block)
    ensures ReadNext(file, pos) == (block, pos + SIZE_SIZE + |block|)
  {
    hide BlockDump; hide Record;
    DumpRecord(file, pos, block, 0, TWO_64 - 1);
    assert block[0..|block|] == block;
  }

  /** Any part of any block of a file can be read, however much was appended since. */
  lemma ReadPart(blocks: seq<Data>, tail: Data, i: nat, from: nat, to: nat)
    requires FileOk(blocks, tail) && i < |blocks| && from <= to
    ensures BlockDump(Contents(blocks) + tail, Position(blocks, i), from, to) ==
            if from < |blocks[i]| then (|blocks[i]|, blocks[i][from..if to < |blocks[i]| then to else |blocks[i]|])
            else (0, [])
  {
    hide Contents; hide BlockDump; hide Record;
    ContentsSplit(blocks, i);
    var file, p, q := Contents(blocks) + tail, Position(blocks, i), Position(blocks, i + 1);
    assert file[p..q] == Contents(blocks)[p..q];
    DumpRecord(file, p, blocks[i], from, to);
  }

  /** Reading at the position of a block gives that block and the position of the next, however much was appended
      since. */
  lemma ReadBlock(blocks: seq<Data>, tail: Data, i: nat)
    requires FileOk(blocks, tail) && i < |blocks|
    ensures ReadNext(Contents(blocks) + tail, Position(blocks, i)) == (blocks[i], Position(blocks, i + 1))
  {
    hide Contents; hide ReadNext; hide Record;
    ContentsSplit(blocks, i);
    var file, p, q := Contents(blocks) + tail, Position(blocks, i), Position(blocks, i + 1);
    assert file[p..q] == Contents(blocks)[p..q];
    ReadRecord(file, p, blocks[i]);
  }

  /** A torn record at the end, or nothing there, makes no progress. */
  lemma TornTail(blocks: seq<Data>, block: Data, k: nat)
    requires k < |Record(block)| && FileOk(blocks, Record(block)[..k])  && |Contents(blocks)| + |Record(block)| < TWO_64
    ensures ReadNext(Contents(blocks) + Record(block)[..k], Position(blocks, |blocks|)) ==
            ([], Position(blocks, |blocks|))
  {
    hide Contents; hide Little; hide FromLittle;
    assert blocks[..|blocks|] == blocks;
    var file, pos := Contents(blocks) + Record(block)[..k], |Contents(blocks)|;
    if k >= SIZE_SIZE {
      assert file[pos..pos + SIZE_SIZE] == Record(block)[..SIZE_SIZE] == Little(|block|, SIZE_SIZE);
      SizeRead(block);
      assert (|block| + (pos + SIZE_SIZE)) % TWO_64 == |block| + pos + SIZE_SIZE;
    }
  }

  /** endBlockPos of a header: what is confirmed after a block is where the next one starts. */
  lemma ConfirmedIsNext(blocks: seq<Data>, i: nat)
    requires i < |blocks|
    ensures Position(blocks, i) + |blocks[i]| + SIZE_SIZE == Position(blocks, i + 1)
  {
    hide Contents; hide Record;
    ContentsSplit(blocks, i);
  }

  // ----- the reader -----

  /** A strict beginning of some record that would still fit. */
  ghost predicate Torn(blocks: seq<Data>, tail: Data, block: Data)
  {
    |tail| < |Record(block)| && tail == Record(block)[..|tail|] && |Contents(blocks)| + |Record(block)| < TWO_64
  }

  /** Reads on until a call makes no progress: exactly the blocks from the confirmed position on, up to a torn tail. */
  method ReadAll(file: Data, from: nat, ghost blocks: seq<Data>, ghost tail: Data, ghost torn: Data, ghost i: nat)
    returns (read: seq<Data>, pos: nat)
    requires FileOk(blocks, tail) && Torn(blocks, tail, torn) && file == Contents(blocks) + tail && i <= |blocks| &&
             from == Position(blocks, i)
    ensures read == blocks[i..] && pos == Position(blocks, |blocks|)
  {
    hide ReadNext; hide FileOk; hide Contents; hide Record;
    read, pos := [], from;
    while true
      invariant i + |read| <= |blocks| && read == blocks[i..i + |read|] && pos == Position(blocks, i + |read|)
      decreases |blocks| - |read|
    {
      var (block, next) := ReadNext(file, pos);
      if i + |read| < |blocks| {
        ReadBlock(blocks, tail, i + |read|);
        ContentsSplit(blocks, i + |read|);
      } else {
        TornTail(blocks, torn, |tail|);
      }
      if next == pos { break; }
      read, pos := read + [block], next;
    }
  }
}
