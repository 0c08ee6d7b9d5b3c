/** The LZ4 block format (LZ4 Block Format Description, "Compressed block format" and "Parsing restrictions"): what a
    block of sequences means, how it is written, and how a reader that applies the end-of-block checks reads it back. */
module Lz4Format {
  import opened Bytes

  const MINMATCH := 4
  const LASTLITERALS := 5
  const MFLIMIT := 12
  const MASK := 15
  const MAX_DISTANCE := 0xFFFF

  /** Literals followed by a copy of `length` bytes starting `offset` bytes back. */
  datatype Sequence = Sequence(literals: Data, offset: nat, length: nat)

  datatype Block = Block(sequences: seq<Sequence>, last: Data)

  // ----- meaning -----

  /** A copy may overlap its own output. Offset 0 stands for zero bytes: that is what the reader makes of it. */
  function CopyMatch(out: Data, offset: nat, length: nat): (r: Data)
    requires offset <= |out|
    ensures |r| == |out| + length
    decreases length
  {
    if length == 0 then out
    else CopyMatch(out + [if offset == 0 then 0 else out[|out| - offset]], offset, length - 1)
  }

  /** From `start` to `end`, every byte repeats the one `offset` before it. */
  ghost predicate Repeats(s: Data, start: nat, end: nat, offset: nat)
    requires offset <= start && end <= |s|
  {
    forall i :: start <= i < end ==> s[i] == if offset == 0 then 0 else s[i - offset]
  }

  lemma {:induction false} RepeatIsCopy(s: Data, start: nat, offset: nat)
    requires offset <= start <= |s| && Repeats(s, start, |s|, offset)
    ensures s == CopyMatch(s[..start], offset, |s| - start)
    decreases |s| - start
  {
    if start < |s| {
      assert s[..start] + [s[start]] == s[..start + 1];
      RepeatIsCopy(s, start + 1, offset);
    } else {
      assert s[..start] == s;
    }
  }

  predicate Applies(out: Data, q: Sequence) { q.offset <= |out| + |q.literals| }

  function Expand(sequences: seq<Sequence>): Data
  {
    if sequences == [] then []
    else
      var front, q := Expand(sequences[..|sequences| - 1]), sequences[|sequences| - 1];
      if Applies(front, q) then CopyMatch(front + q.literals, q.offset, q.length) else []
  }

  function ExpandBlock(b: Block): Data { Expand(b.sequences) + b.last }

  // ----- writing -----

  /** A length beyond what the token holds: bytes of 255 and a smaller one. */
  function Extension(n: nat): (r: Data)
    ensures |r| == n / 255 + 1
  {
    if n < 255 then [n] else [255] + Extension(n - 255)
  }

  function Field(n: nat): (r: nat)
    ensures r <= MASK
  {
    if n < MASK then n else MASK
  }

  function FieldExtension(n: nat): Data { if n < MASK then [] else Extension(n - MASK) }

  function Low16(n: nat): Data { [n % 0x100, n / 0x100 % 0x100] }

  function Code(q: Sequence): nat { if q.length < MINMATCH then 0 else q.length - MINMATCH }

  function Token(literals: nat, code: nat): byte { Field(literals) * 16 + Field(code) }

  function LiteralPart(literals: Data): Data { FieldExtension(|literals|) + literals }

  function MatchPart(q: Sequence): Data { Low16(q.offset) + FieldExtension(Code(q)) }

  function EncodeSequence(q: Sequence): Data
  {
    [Token(|q.literals|, Code(q))] + LiteralPart(q.literals) + MatchPart(q)
  }

  function EncodeLast(last: Data): Data { [Token(|last|, 0)] + LiteralPart(last) }

  function EncodeSequences(sequences: seq<Sequence>): Data
  {
    if sequences == [] then []
    else EncodeSequences(sequences[..|sequences| - 1]) + EncodeSequence(sequences[|sequences| - 1])
  }

  function EncodeBlock(b: Block): Data { EncodeSequences(b.sequences) + EncodeLast(b.last) }

  // ----- which blocks are well formed for an output of n bytes -----

  /** A sequence after `start` bytes: its match is at least 4 long, starts 12 and ends 5 bytes before the end, and does
      not reach back beyond the start. */
  predicate SequenceOk(start: nat, q: Sequence, n: nat)
  {
    var from := start + |q.literals|;
    MINMATCH <= q.length && 0 < q.offset <= MAX_DISTANCE && q.offset <= from && from + MFLIMIT <= n &&
      from + q.length + LASTLITERALS <= n
  }

  ghost predicate SequencesOk(sequences: seq<Sequence>, n: nat)
  {
    forall k :: 0 <= k < |sequences| ==> SequenceOk(|Expand(sequences[..k])|, sequences[k], n)
  }

  ghost predicate BlockOk(b: Block)
  {
    SequencesOk(b.sequences, |ExpandBlock(b)|)
  }

  lemma AppendOk(sequences: seq<Sequence>, q: Sequence, n: nat)
    requires SequencesOk(sequences, n) && SequenceOk(|Expand(sequences)|, q, n)
    ensures SequencesOk(sequences + [q], n)
    ensures Expand(sequences + [q]) == CopyMatch(Expand(sequences) + q.literals, q.offset, q.length)
    ensures EncodeSequences(sequences + [q]) == EncodeSequences(sequences) + EncodeSequence(q)
  {
    hide Expand; hide CopyMatch; hide EncodeSequence; hide SequenceOk;
    var all := sequences + [q];
    forall k | 0 <= k < |all| ensures SequenceOk(|Expand(all[..k])|, all[k], n) {
      if k < |sequences| { assert all[..k] == sequences[..k]; } else { assert all[..k] == sequences; }
    }
    assert all[..|all| - 1] == sequences;
    AppendExpand(sequences, q);
    SequenceApplies(|Expand(sequences)|, q, n);
  }

  lemma SequenceApplies(start: nat, q: Sequence, n: nat)
    requires SequenceOk(start, q, n)
    ensures q.offset <= start + |q.literals|
  {
  }

  lemma AppendExpand(sequences: seq<Sequence>, q: Sequence)
    ensures q.offset <= |Expand(sequences)| + |q.literals| ==>
              Expand(sequences + [q]) == CopyMatch(Expand(sequences) + q.literals, q.offset, q.length)
  {
    hide CopyMatch;
    assert (sequences + [q])[..|sequences|] == sequences;
  }

  // ----- reading -----

  /** Reads a literal-length extension; it also stops when fewer than 16 bytes are left. Nothing is left at all: the
      byte after the input is read, and no length fits any more. */
  function ReadLiteralLength(rest: Data, sum: nat): (r: Option<(nat, Data)>)
    ensures r.Some? ==> |r.value.1| < |rest|
    decreases |rest|
  {
    if rest == [] then None
    else if |rest| - 1 > MASK && rest[0] == 255 then ReadLiteralLength(rest[1..], sum + 255)
    else Some((sum + rest[0], rest[1..]))
  }

  /** Reads a match-length extension, which must leave at least 5 bytes. */
  function ReadMatchLength(rest: Data, sum: nat): (r: Option<(nat, Data)>)
    ensures r.Some? ==> LASTLITERALS <= |r.value.1| < |rest|
    decreases |rest|
  {
    if |rest| - 1 < LASTLITERALS then None
    else if rest[0] == 255 then ReadMatchLength(rest[1..], sum + 255)
    else Some((sum + rest[0], rest[1..]))
  }

  function LiteralLength(token: byte, rest: Data): (r: Option<(nat, Data)>)
    ensures r.Some? ==> |r.value.1| <= |rest|
  {
    if token / 16 == MASK then ReadLiteralLength(rest, MASK) else Some((token / 16, rest))
  }

  function MatchCode(token: byte, rest: Data): (r: Option<(nat, Data)>)
    requires |rest| > LASTLITERALS
    ensures r.Some? ==> LASTLITERALS <= |r.value.1| <= |rest|
  {
    if token % 16 == MASK then ReadMatchLength(rest, MASK) else Some((token % 16, rest))
  }

  function Offset16(rest: Data): nat
    requires |rest| >= 2
  {
    var low: nat, high: nat := rest[0], rest[1];
    low + 0x100 * high
  }

  /** Reads the rest of a block after `out`, into a buffer of `capacity` bytes. */
  function Decode(rest: Data, out: Data, capacity: int): (r: Option<Data>)
    requires rest != []
    decreases |rest|
  {
    var literals := LiteralLength(rest[0], rest[1..]);
    if literals.None? then None
    else
      var (length, rest1) := literals.value;
      if |out| + length > capacity - MFLIMIT || length > |rest1| - (2 + 1 + LASTLITERALS) then
        if length != |rest1| || |out| + length > capacity then None else Some(out + rest1)
      else DecodeMatch(rest[0], rest1[length..], out + rest1[..length], capacity)
  }

  function DecodeMatch(token: byte, rest: Data, out: Data, capacity: int): (r: Option<Data>)
    requires |rest| >= 2 + 1 + LASTLITERALS
    decreases |rest|
  {
    var offset, code := Offset16(rest), MatchCode(token, rest[2..]);
    if offset > |out| || code.None? || |out| + code.value.0 + MINMATCH > capacity - LASTLITERALS then None
    else Decode(code.value.1, CopyMatch(out, offset, code.value.0 + MINMATCH), capacity)
  }

  /** A whole block. An output of no bytes has one encoding. */
  function DecodeBlock(src: Data, capacity: int): (r: Option<Data>)
    requires src != []
  {
    if capacity == 0 then (if |src| == 1 && src[0] == 0 then Some([]) else None) else Decode(src, [], capacity)
  }

  // ----- reading what was written -----

  lemma {:induction false} ReadsLiteralLength(n: nat, tail: Data, sum: nat)
    requires |tail| >= MASK
    ensures ReadLiteralLength(Extension(n) + tail, sum) == Some((sum + n, tail))
  {
    var all := Extension(n) + tail;
    if n >= 255 {
      assert all[1..] == Extension(n - 255) + tail;
      ReadsLiteralLength(n - 255, tail, sum + 255);
    } else {
      assert all[1..] == tail;
    }
  }

  lemma {:induction false} ReadsMatchLength(n: nat, tail: Data, sum: nat)
    requires |tail| >= LASTLITERALS
    ensures ReadMatchLength(Extension(n) + tail, sum) == Some((sum + n, tail))
  {
    var all := Extension(n) + tail;
    if n >= 255 {
      assert all[1..] == Extension(n - 255) + tail;
      ReadsMatchLength(n - 255, tail, sum + 255);
    } else {
      assert all[1..] == tail;
    }
  }

  lemma TokenParts(literals: nat, code: nat)
    ensures Token(literals, code) / 16 == Field(literals) && Token(literals, code) % 16 == Field(code)
  {
  }

  lemma ReadsLiterals(literals: Data, code: nat, tail: Data)
    ensures LiteralLength(Token(|literals|, code), LiteralPart(literals) + tail) == Some((|literals|, literals + tail))
  {
    hide Extension; hide ReadLiteralLength; hide Token;
    TokenParts(|literals|, code);
    if |literals| >= MASK {
      ReadsLiteralLength(|literals| - MASK, literals + tail, MASK);
      assert LiteralPart(literals) + tail == Extension(|literals| - MASK) + (literals + tail);
    } else {
      assert LiteralPart(literals) + tail == literals + tail;
    }
  }

  /** What the reader asks of a sequence after `start` bytes, with `after` more bytes of the block behind it. */
  predicate Readable(start: nat, q: Sequence, capacity: int, after: nat)
  {
    var from := start + |q.literals|;
    MINMATCH <= q.length && q.offset <= MAX_DISTANCE && q.offset <= from && from + MFLIMIT <= capacity &&
    from + q.length + LASTLITERALS <= capacity && LASTLITERALS <= after &&
    (after == LASTLITERALS ==> q.length >= MINMATCH + MASK)
  }

  lemma ReadsMatch(literals: nat, q: Sequence, tail: Data)
    requires LASTLITERALS <= |tail| && (|tail| == LASTLITERALS ==> q.length >= MINMATCH + MASK) &&
             q.offset <= MAX_DISTANCE
    ensures var all := MatchPart(q) + tail;
            |all| >= 8 && Offset16(all) == q.offset &&
              MatchCode(Token(literals, Code(q)), all[2..]) == Some((Code(q), tail))
  {
    hide Extension; hide ReadMatchLength; hide Token;
    TokenParts(literals, Code(q));
    var all := MatchPart(q) + tail;
    assert all[2..] == FieldExtension(Code(q)) + tail;
    assert q.offset / 0x100 % 0x100 == q.offset / 0x100;
    if Code(q) >= MASK {
      ReadsMatchLength(Code(q) - MASK, tail, MASK);
    } else {
      assert all[2..] == tail;
    }
  }

  lemma ReadsMatchOf(q: Sequence, more: Data, out: Data, n: int)
    requires q.length >= MINMATCH && q.offset <= MAX_DISTANCE && q.offset <= |out| &&
             |out| + q.length + LASTLITERALS <= n
    requires LASTLITERALS <= |more| && (|more| == LASTLITERALS ==> q.length >= MINMATCH + MASK)
    ensures |MatchPart(q) + more| >= 8
    ensures DecodeMatch(Token(|q.literals|, Code(q)), MatchPart(q) + more, out, n) ==
            Decode(more, CopyMatch(out, q.offset, q.length), n)
  {
    hide Token; hide MatchPart; hide MatchCode; hide Offset16; hide CopyMatch;
    ReadsMatch(|q.literals|, q, more);
  }

  /** A readable sequence is read as what it means. */
  lemma ReadsSequence(q: Sequence, more: Data, out: Data, n: int)
    requires Readable(|out|, q, n, |more|)
    ensures Decode(EncodeSequence(q) + more, out, n) == Decode(more, CopyMatch(out + q.literals, q.offset, q.length), n)
  {
    hide Token; hide LiteralPart; hide MatchPart; hide LiteralLength; hide CopyMatch; hide DecodeMatch;
    var all := EncodeSequence(q) + more;
    var tail := MatchPart(q) + more;
    assert all[1..] == LiteralPart(q.literals) + tail;
    ReadsLiterals(q.literals, Code(q), tail);
    ReadsMatchOf(q, more, out + q.literals, n);
    assert (q.literals + tail)[..|q.literals|] == q.literals;
    assert (q.literals + tail)[|q.literals|..] == tail;
  }

  lemma ReadsLast(last: Data, out: Data)
    requires |out| + |last| > 0
    ensures Decode(EncodeLast(last), out, |out| + |last|) == Some(out + last)
  {
    hide Token; hide LiteralPart; hide LiteralLength;
    var all := EncodeLast(last);
    assert all[1..] == LiteralPart(last) + [];
    ReadsLiterals(last, 0, []);
    assert last + [] == last;
  }

  // ----- whole blocks -----

  function Tail(b: Block, k: nat): (r: Data)
    requires k <= |b.sequences|
    ensures r != []
    decreases |b.sequences| - k
  {
    if k == |b.sequences| then EncodeLast(b.last) else EncodeSequence(b.sequences[k]) + Tail(b, k + 1)
  }

  lemma {:induction false} TailIsRest(b: Block, k: nat)
    requires k <= |b.sequences|
    ensures EncodeBlock(b) == EncodeSequences(b.sequences[..k]) + Tail(b, k)
    decreases |b.sequences| - k
  {
    hide EncodeSequence; hide EncodeLast;
    if k == |b.sequences| {
      assert b.sequences[..k] == b.sequences;
    } else {
      TailIsRest(b, k + 1);
      EncodeNext(b.sequences, k);
      assert EncodeSequences(b.sequences[..k + 1]) + Tail(b, k + 1)
          == EncodeSequences(b.sequences[..k]) + (EncodeSequence(b.sequences[k]) + Tail(b, k + 1));
    }
  }

  lemma EncodeNext(sequences: seq<Sequence>, k: nat)
    requires k < |sequences|
    ensures EncodeSequences(sequences[..k + 1]) == EncodeSequences(sequences[..k]) + EncodeSequence(sequences[k])
  {
    hide EncodeSequence;
    assert sequences[..k + 1][..k] == sequences[..k];
  }

  lemma {:induction false} TailLength(b: Block, k: nat)
    requires k <= |b.sequences| && |b.last| >= LASTLITERALS
    ensures |Tail(b, k)| > LASTLITERALS
    decreases |b.sequences| - k
  {
    if k < |b.sequences| { TailLength(b, k + 1); }
  }

  lemma {:induction false} ExpandLength(sequences: seq<Sequence>, n: nat, k: nat)
    requires SequencesOk(sequences, n) && k < |sequences|
    ensures |Expand(sequences[..k + 1])| == |Expand(sequences[..k])| + |sequences[k].literals| + sequences[k].length
    ensures Expand(sequences[..k + 1]) == CopyMatch(Expand(sequences[..k]) + sequences[k].literals, sequences[k].offset,
            sequences[k].length)
  {
    hide CopyMatch;
    assert sequences[..k + 1] == sequences[..k] + [sequences[k]];
    AppendExpand(sequences[..k], sequences[k]);
    assert SequenceOk(|Expand(sequences[..k])|, sequences[k], n);
  }

  lemma LastIsLong(b: Block)
    requires BlockOk(b) && b.sequences != []
    ensures |b.last| >= LASTLITERALS
  {
    hide Expand; hide CopyMatch;
    var k := |b.sequences| - 1;
    ExpandLength(b.sequences, |ExpandBlock(b)|, k);
    assert b.sequences[..k + 1] == b.sequences;
    assert SequenceOk(|Expand(b.sequences[..k])|, b.sequences[k], |ExpandBlock(b)|);
  }

  lemma {:induction false} ReadsTail(b: Block, k: nat)
    requires BlockOk(b) && k <= |b.sequences| && ExpandBlock(b) != []
    ensures Decode(Tail(b, k), Expand(b.sequences[..k]), |ExpandBlock(b)|) == Some(ExpandBlock(b))
    decreases |b.sequences| - k
  {
    hide Expand; hide CopyMatch; hide Decode; hide EncodeSequence; hide EncodeLast;
    var n := |ExpandBlock(b)|;
    if k == |b.sequences| {
      assert b.sequences[..k] == b.sequences;
      ReadsLast(b.last, Expand(b.sequences));
    } else {
      LastIsLong(b);
      TailLength(b, k + 1);
      assert SequenceOk(|Expand(b.sequences[..k])|, b.sequences[k], n);
      ReadsSequence(b.sequences[k], Tail(b, k + 1), Expand(b.sequences[..k]), n);
      ExpandLength(b.sequences, n, k);
      ReadsTail(b, k + 1);
    }
  }

  /** Reading undoes writing for every well formed block, including overlapping matches, long lengths and the empty one;
      the end-of-block checks never refuse it. */
  lemma DecodeEncode(b: Block)
    requires BlockOk(b)
    ensures EncodeBlock(b) != [] && DecodeBlock(EncodeBlock(b), |ExpandBlock(b)|) == Some(ExpandBlock(b))
  {
    hide Decode; hide CopyMatch; hide Expand; hide EncodeSequence; hide EncodeLast; hide Tail; hide EncodeBlock;
    hide ExpandBlock; hide BlockOk;
    TailIsRest(b, 0);
    assert b.sequences[..0] == [];
    if ExpandBlock(b) == [] {
      EmptyBlock(b);
    } else {
      ReadsTail(b, 0);
      NoSequences(b.sequences[..0]);
      assert EncodeBlock(b) == Tail(b, 0);
    }
  }

  lemma NoSequences(sequences: seq<Sequence>)
    requires |sequences| == 0
    ensures |EncodeSequences(sequences)| == 0 && |Expand(sequences)| == 0
  {
  }

  lemma BlockLength(b: Block)
    ensures |ExpandBlock(b)| == |Expand(b.sequences)| + |b.last|
    ensures |EncodeBlock(b)| == |EncodeSequences(b.sequences)| + |EncodeLast(b.last)|
    ensures EncodeBlock(b)[|EncodeSequences(b.sequences)|] == EncodeLast(b.last)[0]
  {
    hide Expand; hide EncodeSequences; hide LiteralPart; hide Token;
  }

  lemma LastLength(last: Data)
    ensures |LiteralPart(last)| == |FieldExtension(|last|)| + |last|
    ensures |EncodeLast(last)| == 1 + |LiteralPart(last)| && EncodeLast(last)[0] == Token(|last|, 0)
  {
    hide FieldExtension; hide Token;
  }

  lemma ShortField(n: nat)
    ensures n < MASK ==> |FieldExtension(n)| == 0
  {
    hide Extension;
  }

  lemma EmptyBlock(b: Block)
    requires BlockOk(b) && |ExpandBlock(b)| == 0
    ensures |EncodeBlock(b)| == 1 && EncodeBlock(b)[0] == 0
  {
    hide CopyMatch; hide Expand; hide EncodeLast; hide EncodeSequence; hide EncodeSequences; hide BlockOk;
    hide EncodeBlock; hide ExpandBlock;
    hide LiteralPart; hide Token;
    BlockLength(b);
    if b.sequences != [] { LastIsLong(b); }
    NoSequences(b.sequences);
    ShortLast(b.last);
    LastLength(b.last);
  }

  lemma ShortLast(last: Data)
    ensures |last| < MASK ==> |LiteralPart(last)| == |last| && Token(|last|, 0) == |last| * 16
  {
    hide LiteralPart; hide FieldExtension; hide EncodeLast;
    LastLength(last);
    ShortField(|last|);
  }

  // ----- what the reader accepts -----

  /** The reader ignores the match length in the last token. */
  function LastBytes(last: Data, low: nat): Data
    requires low <= MASK
  {
    [Field(|last|) * 16 + low] + LiteralPart(last)
  }

  function Coded(sequences: seq<Sequence>, last: Data, low: nat): (r: Data)
    requires low <= MASK
    ensures r != []
    decreases sequences
  {
    if sequences == [] then LastBytes(last, low) else EncodeSequence(sequences[0]) + Coded(sequences[1..], last, low)
  }

  /** After `out`, every sequence is readable and the last literals fit the buffer. */
  predicate AllReadable(out: Data, sequences: seq<Sequence>, last: Data, low: nat, capacity: int)
    requires low <= MASK
    decreases sequences
  {
    if sequences == [] then |out| + |last| <= capacity
    else
      var q := sequences[0];
      Readable(|out|, q, capacity, |Coded(sequences[1..], last, low)|) &&
      AllReadable(CopyMatch(out + q.literals, q.offset, q.length), sequences[1..], last, low, capacity)
  }

  /** What the sequences and the last literals mean after `out`. */
  function Meaning(out: Data, sequences: seq<Sequence>, last: Data): Data
    decreases sequences
  {
    if sequences == [] then out + last
    else
      var q := sequences[0];
      if Applies(out, q) then Meaning(CopyMatch(out + q.literals, q.offset, q.length), sequences[1..], last) else []
  }

  lemma ReadsLastBytes(last: Data, low: nat, out: Data, capacity: int)
    requires low <= MASK && |out| + |last| <= capacity
    ensures Decode(LastBytes(last, low), out, capacity) == Some(out + last)
  {
    hide Token; hide LiteralPart; hide LiteralLength;
    var all := LastBytes(last, low);
    assert all[1..] == LiteralPart(last) + [];
    SameLength(last, low);
    ReadsLiterals(last, 0, []);
    assert last + [] == last;
  }

  lemma SameLength(last: Data, low: nat)
    requires low <= MASK
    ensures forall rest :: LiteralLength(LastBytes(last, low)[0], rest) == LiteralLength(Token(|last|, 0), rest)
  {
    hide LiteralPart; hide ReadLiteralLength;
  }

  lemma {:induction false} ReadsCoded(out: Data, sequences: seq<Sequence>, last: Data, low: nat, capacity: int)
    requires low <= MASK && AllReadable(out, sequences, last, low, capacity)
    ensures Decode(Coded(sequences, last, low), out, capacity) == Some(Meaning(out, sequences, last))
    decreases sequences
  {
    hide CopyMatch; hide Decode; hide EncodeSequence; hide LastBytes;
    if sequences == [] {
      ReadsLastBytes(last, low, out, capacity);
    } else {
      var q := sequences[0];
      ReadsSequence(q, Coded(sequences[1..], last, low), out, capacity);
      ReadsCoded(CopyMatch(out + q.literals, q.offset, q.length), sequences[1..], last, low, capacity);
    }
  }

  // ----- and nothing else -----

  lemma {:induction false} LiteralLengthWas(rest: Data, sum: nat)
    requires ReadLiteralLength(rest, sum).Some?
    requires var (n, tail) := ReadLiteralLength(rest, sum).value; n <= |tail|
    ensures var (n, tail) := ReadLiteralLength(rest, sum).value; n >= sum && rest == Extension(n - sum) + tail
    decreases |rest|
  {
    if |rest| - 1 > MASK && rest[0] == 255 {
      LiteralLengthWas(rest[1..], sum + 255);
      var (n, tail) := ReadLiteralLength(rest, sum).value;
      assert rest == [255] + rest[1..] == [255] + Extension(n - sum - 255) + tail;
    } else {
      assert rest == [rest[0]] + rest[1..];
    }
  }

  lemma {:induction false} MatchLengthWas(rest: Data, sum: nat)
    requires ReadMatchLength(rest, sum).Some?
    ensures var (n, tail) := ReadMatchLength(rest, sum).value; n >= sum && rest == Extension(n - sum) + tail
    decreases |rest|
  {
    if rest[0] == 255 {
      MatchLengthWas(rest[1..], sum + 255);
      var (n, tail) := ReadMatchLength(rest, sum).value;
      assert rest == [255] + rest[1..] == [255] + Extension(n - sum - 255) + tail;
    } else {
      assert rest == [rest[0]] + rest[1..];
    }
  }

  lemma LiteralsWere(token: byte, rest: Data)
    requires LiteralLength(token, rest).Some?
    requires var (n, tail) := LiteralLength(token, rest).value; n <= |tail|
    ensures var (n, tail) := LiteralLength(token, rest).value;
            token / 16 == Field(n) && rest == FieldExtension(n) + tail
  {
    hide ReadLiteralLength; hide Extension;
    if token / 16 == MASK { LiteralLengthWas(rest, MASK); }
  }

  lemma CodeWas(token: byte, rest: Data)
    requires |rest| > LASTLITERALS && MatchCode(token, rest).Some?
    ensures var (n, tail) := MatchCode(token, rest).value;
            token % 16 == Field(n) && rest == FieldExtension(n) + tail && (n < MASK ==> |tail| > LASTLITERALS)
  {
    hide ReadMatchLength; hide Extension;
    if token % 16 == MASK { MatchLengthWas(rest, MASK); }
  }

  lemma OffsetWas(rest: Data)
    requires |rest| >= 2
    ensures Offset16(rest) <= MAX_DISTANCE && rest == Low16(Offset16(rest)) + rest[2..]
  {
    assert rest == [rest[0], rest[1]] + rest[2..];
  }

  /** The sequence that the reader has read when it goes on. */
  lemma SequenceWas(rest: Data, out: Data, capacity: int) returns (q: Sequence, more: Data)
    requires rest != [] && Decode(rest, out, capacity).Some? && LiteralLength(rest[0], rest[1..]).Some?
    requires var (length, rest1) := LiteralLength(rest[0], rest[1..]).value;
             |out| + length <= capacity - MFLIMIT && length <= |rest1| - (2 + 1 + LASTLITERALS)
    ensures |more| < |rest| && more != [] && rest == EncodeSequence(q) + more &&
            Readable(|out|, q, capacity, |more|) &&
            Decode(rest, out, capacity) == Decode(more, CopyMatch(out + q.literals, q.offset, q.length), capacity)
  {
    hide LiteralLength; hide MatchCode; hide CopyMatch; hide Offset16; hide FieldExtension; hide Field; hide Low16;
    var token := rest[0];
    var (length, rest1) := LiteralLength(token, rest[1..]).value;
    LiteralsWere(token, rest[1..]);
    var literals, rest2 := rest1[..length], rest1[length..];
    OffsetWas(rest2);
    CodeWas(token, rest2[2..]);
    var (code, tail) := MatchCode(token, rest2[2..]).value;
    q, more := Sequence(literals, Offset16(rest2), code + MINMATCH), tail;
    assert rest1 == literals + rest2;
    TokenWas(token, length, code);
    PartsJoin(rest, q, rest2, more);
  }

  lemma PartsJoin(rest: Data, q: Sequence, rest2: Data, more: Data)
    requires rest != [] && q.length >= MINMATCH && rest[0] == Token(|q.literals|, Code(q)) && |rest2| >= 2
    requires rest[1..] == FieldExtension(|q.literals|) + (q.literals + rest2)
    requires rest2 == Low16(q.offset) + rest2[2..] && rest2[2..] == FieldExtension(Code(q)) + more
    ensures rest == EncodeSequence(q) + more
  {
    hide FieldExtension; hide Low16; hide Token; hide Code;
    assert rest2 == MatchPart(q) + more;
    assert rest == [rest[0]] + rest[1..];
    assert FieldExtension(|q.literals|) + (q.literals + rest2) == LiteralPart(q.literals) + rest2;
    JoinFour([rest[0]], LiteralPart(q.literals), MatchPart(q), more);
  }

  lemma JoinFour(a: Data, b: Data, c: Data, d: Data)
    ensures a + (b + (c + d)) == a + b + c + d
  {
  }

  lemma TokenWas(token: byte, literals: nat, code: nat)
    requires token / 16 == Field(literals) && token % 16 == Field(code)
    ensures token == Token(literals, code)
  {
  }

  lemma LastWas(rest: Data, out: Data, capacity: int) returns (last: Data, low: nat)
    requires rest != [] && Decode(rest, out, capacity).Some? && LiteralLength(rest[0], rest[1..]).Some?
    requires var (length, rest1) := LiteralLength(rest[0], rest[1..]).value;
             |out| + length > capacity - MFLIMIT || length > |rest1| - (2 + 1 + LASTLITERALS)
    ensures low <= MASK && rest == LastBytes(last, low) && |out| + |last| <= capacity
  {
    hide LiteralLength; hide FieldExtension; hide Field;
    var (length, rest1) := LiteralLength(rest[0], rest[1..]).value;
    LiteralsWere(rest[0], rest[1..]);
    last, low := rest1, rest[0] % 16;
    assert rest == [rest[0]] + rest[1..];
  }

  /** Whatever the reader accepts was written as readable sequences and last literals. */
  lemma {:induction false} CodedWas(rest: Data, out: Data, capacity: int)
    returns (sequences: seq<Sequence>, last: Data, low: nat)
    requires rest != [] && Decode(rest, out, capacity).Some?
    ensures low <= MASK && rest == Coded(sequences, last, low) && AllReadable(out, sequences, last, low, capacity)
    decreases |rest|
  {
    hide LiteralLength; hide CopyMatch; hide EncodeSequence; hide LastBytes; hide DecodeMatch;
    var literals := LiteralLength(rest[0], rest[1..]);
    var (length, rest1) := literals.value;
    if |out| + length > capacity - MFLIMIT || length > |rest1| - (2 + 1 + LASTLITERALS) {
      sequences := [];
      last, low := LastWas(rest, out, capacity);
    } else {
      var q, more := SequenceWas(rest, out, capacity);
      sequences, last, low := CodedWas(more, CopyMatch(out + q.literals, q.offset, q.length), capacity);
      assert ([q] + sequences)[1..] == sequences;
      sequences := [q] + sequences;
    }
  }

  /** The block is written with these sequences, readable within the buffer; for an empty buffer it is the zero byte. */
  ghost predicate WrittenAs(src: Data, capacity: int, sequences: seq<Sequence>, last: Data, low: nat)
  {
    low <= MASK && src == Coded(sequences, last, low) && AllReadable([], sequences, last, low, capacity) &&
    (capacity == 0 ==> low == 0)
  }

  /** The reader accepts exactly the blocks written as readable sequences and last literals, and reads them as what they
      mean: everything else is refused. */
  lemma DecodesExactly(src: Data, capacity: nat, result: Data)
    requires src != []
    ensures DecodeBlock(src, capacity) == Some(result) <==>
            exists sequences, last, low ::
              WrittenAs(src, capacity, sequences, last, low) && Meaning([], sequences, last) == result
  {
    hide Decode; hide CopyMatch; hide EncodeSequence; hide LastBytes; hide Readable;
    if DecodeBlock(src, capacity) == Some(result) {
      if capacity == 0 {
        ZeroBlock(src);
        assert WrittenAs(src, capacity, [], [], 0);
      } else {
        var sequences, last, low := CodedWas(src, [], capacity);
        ReadsCoded([], sequences, last, low, capacity);
        assert WrittenAs(src, capacity, sequences, last, low);
      }
    }
    if sequences, last, low :|
      WrittenAs(src, capacity, sequences, last, low) && Meaning([], sequences, last) == result
    {
      if capacity == 0 { ZeroOnly(sequences, last, low); } else { ReadsCoded([], sequences, last, low, capacity); }
    }
  }

  lemma ZeroBlock(src: Data)
    requires |src| == 1 && src[0] == 0
    ensures src == Coded([], [], 0)
  {
  }

  lemma ZeroOnly(sequences: seq<Sequence>, last: Data, low: nat)
    requires low == 0 && AllReadable([], sequences, last, low, 0)
    ensures Coded(sequences, last, low) == [0] && Meaning([], sequences, last) == []
  {
  }
}
