/** LZ4_decompress_safe (3rdParty/ubuntu14/lz4/lz4.c): the in-place decoder with its 8-byte copies, which refines the
    reader of the block format on every input. */
module Lz4Decoder {
  import opened Bytes
  import opened Lz4Format
  import opened Lz4Memory

  // ----- repeating matches -----

  /** How far apart reader and writer are after the first 8 bytes of a match: at least 8, and a multiple of the
      offset. */
  function Apart(offset: nat): nat
  {
    if offset >= 8 then offset else [8, 8, 8, 9, 8, 10, 12, 14][offset]
  }

  function Periods(offset: nat): nat { if offset >= 8 then 1 else [0, 8, 4, 3, 2, 2, 2, 2][offset] }

  lemma ApartIsMultiple(offset: nat)
    ensures Apart(offset) >= 8 && Apart(offset) >= offset &&
            (offset > 0 ==> Apart(offset) == Periods(offset) * offset && Periods(offset) >= 1)
    ensures offset <= 8 ==> Apart(offset) <= 8 + offset
  {
  }

  /** Going back a whole number of periods. */
  lemma {:induction false} Back(s: Data, start: nat, end: nat, offset: nat, i: nat, m: nat)
    requires 0 < offset <= start && end <= |s| && Repeats(s, start, end, offset)
    requires i < end && m * offset + start <= i + offset
    ensures m * offset <= i && s[i] == s[i - m * offset]
  {
    if m > 0 {
      assert m * offset == (m - 1) * offset + offset;
      Back(s, start, end, offset, i, m - 1);
      assert i - (m - 1) * offset >= start;
    }
  }

  /** A byte taken `Apart` back continues the repetition. */
  lemma Continues(s: Data, start: nat, end: nat, offset: nat, i: nat)
    requires offset <= start && end <= |s| && Repeats(s, start, end, offset)
    requires start + Apart(offset) <= i + offset && start + 8 <= end && i <= end && i < |s|
    requires i >= start + 8
    ensures Apart(offset) <= i && s[i - Apart(offset)] == if offset == 0 then 0 else s[i - offset]
  {
    hide Apart; hide Periods;
    ApartIsMultiple(offset);
    if offset > 0 {
      var m := Periods(offset);
      assert (m - 1) * offset == m * offset - offset;
      Back(s, start, end, offset, i - offset, m - 1);
    } else {
      ZeroApart();
    }
  }

  lemma ZeroApart()
    ensures Apart(0) == 8
  {
  }

  predicate Taken(s: Data, i: int, dist: nat) { dist <= i < |s| && s[i] == s[i - dist] }

  /** If from `x` on every byte was taken `Apart` back, the repetition goes on to `y`. */
  lemma {:induction false} Extends(s: Data, start: nat, x: nat, y: nat, offset: nat, dist: nat)
    requires offset <= start && start + 8 <= x <= y <= |s| && Repeats(s, start, x, offset) && dist == Apart(offset)
    requires forall i :: x <= i < y ==> Taken(s, i, dist)
    ensures Repeats(s, start, y, offset)
    decreases y - x
  {
    hide Apart;
    if x < y {
      assert Taken(s, x, dist);
      ApartIsMultiple(offset);
      Far(offset);
      Continues(s, start, x, offset, x);
      Extends(s, start, x + 1, y, offset, dist);
    }
  }

  lemma Far(offset: nat)
    ensures offset >= 8 ==> Apart(offset) == offset
  {
  }

  // ----- the first 8 bytes of a match -----

  function Dec32(offset: nat): nat
    requires offset < 8
  {
    [0, 1, 2, 1, 4, 4, 4, 4][offset]
  }

  function Dec64(offset: nat): int
    requires offset < 8
  {
    [0, 0, 0, -1, 0, 1, 2, 3][offset]
  }

  function HalfPeriods(offset: nat): nat
    requires offset < 8
  {
    [0, 4, 2, 2, 1, 1, 1, 1][offset]
  }

  lemma Tables(offset: nat)
    requires offset < 8
    ensures offset > 0 ==> 4 + offset - Dec32(offset) == HalfPeriods(offset) * offset && HalfPeriods(offset) >= 1
    ensures Dec32(offset) <= 4 && Dec32(offset) <= offset
    ensures Dec32(offset) - Dec64(offset) + Apart(offset) == 8 + offset
  {
  }

  method Copy4(a: array<byte>, to: nat, dist: nat)
    requires 4 <= dist <= to && to + 4 <= a.Length
    modifies a
    ensures a[..to] == old(a[..to])
    ensures forall i :: to <= i < to + 4 ==> Taken(a[..], i, dist)
  {
    forall k | 0 <= k < 4 { a[to + k] := a[to - dist + k]; }
    forall i | to <= i < to + 4 ensures Taken(a[..], i, dist) {
      assert a[to + (i - to)] == old(a[to - dist + (i - to)]);
    }
  }

  method FirstFour(a: array<byte>, op: nat, offset: nat)
    requires offset <= op && op + 4 <= a.Length && (offset == 0 ==> forall i :: op <= i < op + 4 ==> a[i] == 0)
    modifies a
    ensures a[..op] == old(a[..op]) && Repeats(a[..], op, op + 4, offset)
  {
    var match_ := op - offset;
    a[op] := a[match_];
    a[op + 1] := a[match_ + 1];
    a[op + 2] := a[match_ + 2];
    a[op + 3] := a[match_ + 3];
  }

  lemma SecondFour(s: Data, op: nat, offset: nat, dist: nat)
    requires offset < 8 && offset <= op && op + 8 <= |s| && Repeats(s, op, op + 4, offset) &&
             dist == 4 + offset - Dec32(offset)
    requires forall i :: op + 4 <= i < op + 8 ==> Taken(s, i, dist)
    ensures Repeats(s, op, op + 8, offset)
  {
    hide Dec32; hide HalfPeriods; hide Dec64; hide Apart;
    Tables(offset);
    assert Taken(s, op + 4, dist) && Taken(s, op + 5, dist) && Taken(s, op + 6, dist) && Taken(s, op + 7, dist);
    SecondByte(s, op, op + 4, offset, dist);
    SecondByte(s, op, op + 5, offset, dist);
    SecondByte(s, op, op + 6, offset, dist);
    SecondByte(s, op, op + 7, offset, dist);
  }

  lemma SecondByte(s: Data, op: nat, i: nat, offset: nat, dist: nat)
    requires offset < 8 && offset <= op && op + 4 <= i < op + 8 <= |s| && Repeats(s, op, i, offset) &&
             dist == 4 + offset - Dec32(offset)
    requires dist <= i && s[i] == s[i - dist]
    ensures Repeats(s, op, i + 1, offset)
  {
    hide Dec32; hide HalfPeriods; hide Dec64; hide Apart;
    Tables(offset);
    if offset > 0 {
      var m := HalfPeriods(offset);
      assert (m - 1) * offset == m * offset - offset;
      Back(s, op, i, offset, i - offset, m - 1);
    }
  }

  /** Afterwards `match` is `Apart` behind the writing position. */
  method FirstEight(a: array<byte>, op: nat, offset: nat) returns (match_: nat)
    requires offset <= op && op + 8 <= a.Length && (offset == 0 ==> forall i :: op <= i < op + 4 ==> a[i] == 0)
    modifies a
    ensures a[..op] == old(a[..op])
    ensures Repeats(a[..], op, op + 8, offset)
    ensures match_ + Apart(offset) == op + 8
  {
    hide Dec32; hide HalfPeriods; hide Dec64; hide Apart;
    if offset < 8 {
      Tables(offset);
      FirstFour(a, op, offset);
      var from := op - offset + Dec32(offset);
      ghost var half := a[..];
      Copy4(a, op + 4, op + 4 - from);
      SamePrefix(half, a[..], op, op + 4, offset);
      SecondFour(a[..], op, offset, op + 4 - from);
      ApartIsMultiple(offset);
      match_ := from - Dec64(offset);
    } else {
      Far(offset);
      Copy8(a, op, op - offset);
      match_ := op - offset + 8;
    }
  }

  // ----- a whole match -----

  lemma SamePrefix(s: Data, t: Data, start: nat, end: nat, offset: nat)
    requires offset <= start && end <= |s| && end <= |t| && s[..end] == t[..end] && Repeats(s, start, end, offset)
    ensures Repeats(t, start, end, offset)
  {
    assert forall i :: 0 <= i < end ==> s[i] == s[..end][i] && t[i] == t[..end][i];
  }

  /** Copies 8-byte steps from `Apart` back; the repetition reaches `end`. */
  method ExtendTo(a: array<byte>, ghost start: nat, op: nat, match_: nat, end: nat, ghost offset: nat)
    requires offset <= start && start + 8 <= op <= a.Length && Repeats(a[..], start, op, offset) &&
             match_ + Apart(offset) == op
    requires op + 8 <= a.Length && end + 7 <= a.Length
    modifies a
    ensures a[..op] == old(a[..op]) && a[..start] == old(a[..start])
    ensures Repeats(a[..], start, if end > op + 8 then end else op + 8, offset)
  {
    hide Apart; hide Repeats;
    ApartIsMultiple(offset);
    ghost var before := a[..];
    WildCopy(a, op, match_, end);
    assert a[..start] == a[..op][..start] == before[..op][..start];
    SamePrefix(before, a[..], start, op, offset);
    forall i | op <= i < (if end > op + 8 then end else op + 8) ensures Taken(a[..], i, Apart(offset)) {
      assert a[i] == a[i - op + match_];
    }
    Extends(a[..], start, op, if end > op + 8 then end else op + 8, offset, Apart(offset));
  }

  /** The last bytes of a match, one by one. */
  method ByteCopy(a: array<byte>, ghost start: nat, op: nat, match_: nat, end: nat, ghost offset: nat)
    requires offset <= start && start + 8 <= op <= a.Length && Repeats(a[..], start, op, offset) &&
             match_ + Apart(offset) == op
    requires end <= a.Length && op <= a.Length
    modifies a
    ensures a[..op] == old(a[..op]) && a[..start] == old(a[..start])
    ensures Repeats(a[..], start, if end > op then end else op, offset)
  {
    hide Apart;
    ApartIsMultiple(offset);
    ghost var was := a[..op];
    var d, s := op, match_;
    while d < end
      invariant op <= d <= a.Length && d <= (if end > op then end else op) && s + Apart(offset) == d
      invariant a[..op] == old(a[..op]) && Repeats(a[..], start, d, offset)
    {
      ghost var before := a[..];
      a[d] := a[s];
      assert a[..d] == before[..d];
      Extends(a[..], start, d, d + 1, offset, Apart(offset));
      d, s := d + 1, s + 1;
    }
    assert a[..start] == a[..op][..start] == was[..start];
  }

  /** A match of any length and offset, in place. Refused when it reaches the last 5 bytes. */
  method CopyInPlace(a: array<byte>, op: nat, offset: nat, length: nat, oend: nat) returns (ok: bool)
    requires offset <= op && op + MFLIMIT <= oend <= a.Length && length >= MINMATCH
    requires offset == 0 ==> forall i :: op <= i < op + 4 ==> a[i] == 0
    modifies a
    ensures ok <==> op + length <= oend - LASTLITERALS
    ensures ok ==> a[..op + length] == CopyMatch(old(a[..op]), offset, length)
  {
    hide Apart; hide Repeats; hide CopyMatch;
    var cpy := op + length;
    var match_ := FirstEight(a, op, offset);
    var d := op + 8;
    ghost var before := a[..op];
    if cpy > oend - 12 {
      if cpy > oend - LASTLITERALS { return false; }
      var oCopyLimit := oend - 7;
      if d < oCopyLimit {
        ExtendTo(a, op, d, match_, oCopyLimit, offset);
        match_ := match_ + (oCopyLimit - d);
        d := oCopyLimit;
        RepeatsLess(a[..], op, d, offset);
      }
      ByteCopy(a, op, d, match_, cpy, offset);
    } else {
      ExtendTo(a, op, d, match_, d, offset);
      if length > 16 { ExtendTo(a, op, d + 8, match_ + 8, cpy, offset); }
    }
    RepeatsLess(a[..], op, cpy, offset);
    Copied(a[..], op, cpy, offset, before);
    return true;
  }

  lemma RepeatsLess(s: Data, start: nat, end: nat, offset: nat)
    requires offset <= start && end <= |s|
    ensures forall e: nat :: end <= e <= |s| && Repeats(s, start, e, offset) ==> Repeats(s, start, end, offset)
  {
  }

  lemma Copied(s: Data, start: nat, end: nat, offset: nat, before: Data)
    requires offset <= start <= end <= |s| && Repeats(s, start, end, offset) && s[..start] == before
    ensures s[..end] == CopyMatch(before, offset, end - start)
  {
    RepeatIsCopy(s[..end], start, offset);
    assert s[..end][..start] == before;
  }

  // ----- lengths -----

  /** The literal-length bytes. The first one is read unconditionally: right after the input stands a zero byte. */
  method LiteralRun(src: Data, from: nat) returns (length: nat, ip: nat)
    requires from <= |src|
    ensures from < ip <= |src| + 1
    ensures ReadLiteralLength(src[from..], MASK) == if ip <= |src| then Some((length, src[ip..])) else None
  {
    ip, length := from, MASK;
    var s := 255;
    while true
      invariant from <= ip <= |src| && (ip > from ==> ip < |src| - MASK)
      invariant ReadLiteralLength(src[ip..], length) == ReadLiteralLength(src[from..], MASK)
      decreases |src| - ip
    {
      s := if ip < |src| then src[ip] else 0;
      ip := ip + 1;
      length := length + s;
      if ip <= |src| { assert src[ip - 1..][1..] == src[ip..]; }
      if !(ip < |src| - MASK && s == 255) { break; }
    }
  }

  /** The match-length bytes, which must leave the last 5. */
  method MatchRun(src: Data, from: nat) returns (ok: bool, length: nat, ip: nat)
    requires from + LASTLITERALS <= |src|
    ensures ReadMatchLength(src[from..], MASK) == if ok && ip <= |src| then Some((length, src[ip..])) else None
    ensures from <= ip && (ok ==> ip <= |src| - LASTLITERALS)
  {
    ok, ip, length := true, from, MASK;
    var s := 255;
    while s == 255
      invariant from <= ip <= |src| - LASTLITERALS
      invariant s == 255 ==> ReadMatchLength(src[ip..], length) == ReadMatchLength(src[from..], MASK)
      invariant s != 255 ==> ReadMatchLength(src[from..], MASK) == Some((length, src[ip..]))
      decreases |src| - ip, s
    {
      s := src[ip];
      ip := ip + 1;
      assert src[ip - 1..][1..] == src[ip..];
      if ip > |src| - LASTLITERALS { return false, length, ip; }
      length := length + s;
    }
  }

  // ----- the decoder -----

  /** Never negative exactly when the block is readable, and then the buffer starts with what the block means. */
  method DecompressSafe(src: Data, dst: array<byte>, outputSize: int) returns (n: int)
    requires src != [] && outputSize <= dst.Length
    modifies dst
    ensures n >= 0 <==> DecodeBlock(src, outputSize).Some?
    ensures n >= 0 ==> n <= dst.Length && dst[..n] == DecodeBlock(src, outputSize).value
  {
    hide Decode; hide DecodeMatch;
    if outputSize == 0 {
      return if |src| == 1 && src[0] == 0 then 0 else -1;
    }
    var ip, op := 0, 0;
    assert src[0..] == src && dst[..0] == [];
    while true
      invariant 0 <= ip < |src| && 0 <= op <= dst.Length
      invariant Decode(src, [], outputSize) == Decode(src[ip..], dst[..op], outputSize)
      decreases |src| - ip
    {
      var token := src[ip];
      var ok, last: bool;
      ok, last, ip, op := Literals(src, ip, dst, op, outputSize);
      if !ok { return -ip - 1; }
      if last { return op; }
      ok, ip, op := OneMatch(token, src, ip, dst, op, outputSize);
      if !ok { return -ip - 1; }
    }
  }

  /** Token and literals of one sequence; literals that come too close to an end must be the last ones. */
  method Literals(src: Data, from: nat, dst: array<byte>, start: nat, outputSize: int)
    returns (ok: bool, last: bool, ip: nat, op: nat)
    requires from < |src| && start <= dst.Length && outputSize <= dst.Length
    modifies dst
    ensures from < ip && op <= dst.Length
    ensures !ok ==> Decode(src[from..], old(dst[..start]), outputSize) == None
    ensures ok && last ==> Decode(src[from..], old(dst[..start]), outputSize) == Some(dst[..op])
    ensures ok && !last ==>
              ip + 2 + 1 + LASTLITERALS <= |src| && op + MFLIMIT <= outputSize &&
              Decode(src[from..], old(dst[..start]), outputSize) ==
                DecodeMatch(src[from], src[ip..], dst[..op], outputSize)
  {
    hide ReadLiteralLength; hide Decode; hide DecodeMatch;
    ghost var rest, out := src[from..], dst[..start];
    Unfold(rest, out, outputSize);
    var token := src[from];
    ip, op := from + 1, start;
    assert rest[1..] == src[ip..];
    var length: nat := token / 16;
    if length == MASK { length, ip := LiteralRun(src, ip); }
    ok, last := true, false;
    if op + length > outputSize - MFLIMIT || ip + length > |src| - (2 + 1 + LASTLITERALS) {
      if ip + length != |src| || op + length > outputSize { return false, false, ip, op; }
      forall k | 0 <= k < length { dst[op + k] := src[ip + k]; }
      assert dst[..op + length] == out + src[ip..];
      return true, true, ip, op + length;
    }
    WildCopyIn(dst, op, src, ip, op + length);
    assert src[ip..][..length] == src[ip..ip + length] && src[ip..][length..] == src[ip + length..];
    assert dst[..op + length] == out + src[ip..ip + length];
    ip, op := ip + length, op + length;
  }

  lemma Unfold(rest: Data, out: Data, capacity: int)
    requires rest != []
    ensures var literals := LiteralLength(rest[0], rest[1..]);
            Decode(rest, out, capacity) ==
              if literals.None? then None
              else
                var (length, rest1) := literals.value;
                if |out| + length > capacity - MFLIMIT || length > |rest1| - (2 + 1 + LASTLITERALS) then
                  if length != |rest1| || |out| + length > capacity then None else Some(out + rest1)
                else DecodeMatch(rest[0], rest1[length..], out + rest1[..length], capacity)
  {
    hide DecodeMatch; hide LiteralLength;
  }

  /** Offset, match length and copy of one sequence. */
  method OneMatch(token: byte, src: Data, from: nat, dst: array<byte>, start: nat, outputSize: int)
    returns (ok: bool, ip: nat, op: nat)
    requires from + 2 + 1 + LASTLITERALS <= |src| && start + MFLIMIT <= outputSize <= dst.Length
    modifies dst
    ensures from < ip && op <= dst.Length
    ensures ok ==>
              ip < |src| && DecodeMatch(token, src[from..], old(dst[..start]), outputSize) ==
              Decode(src[ip..], dst[..op], outputSize)
    ensures !ok ==> DecodeMatch(token, src[from..], old(dst[..start]), outputSize) == None
  {
    hide ReadMatchLength; hide CopyMatch; hide Decode;
    ghost var rest, out := src[from..], dst[..start];
    ip, op := from, start;
    var low: nat, high: nat := src[ip], src[ip + 1];
    var offset := low + 0x100 * high;
    ip := ip + 2;
    assert rest[2..] == src[ip..];
    if offset > op { return false, ip, op; }
    dst[op], dst[op + 1], dst[op + 2], dst[op + 3] := low, high, 0, 0;
    assert dst[..op] == out;
    var length: nat := token % 16;
    ok := true;
    if length == MASK {
      ok, length, ip := MatchRun(src, ip);
      if !ok { return false, ip, op; }
    }
    length := length + MINMATCH;
    ok := CopyInPlace(dst, op, offset, length, outputSize);
    if ok { op := op + length; }
  }
}
