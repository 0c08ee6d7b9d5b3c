/** LZ4_compress_generic (3rdParty/ubuntu14/lz4/lz4.c) with unlimited output and no dictionary: the in-place encoder,
    which writes a well formed block that means its input, within the announced bound. */
module Lz4Encoder {
  import opened Bytes
  import opened Lz4Format
  import opened Lz4Memory

  const MAX_INPUT_SIZE: nat := 0x7E000000
  const LIMIT_64K: nat := 0x10000 + (MFLIMIT - 1)
  const MIN_LENGTH: nat := MFLIMIT + 1
  const SKIP_TRIGGER: nat := 64

  // ----- the hash table -----

  function Read32(src: Data, p: nat): nat
    requires p + 4 <= |src|
  {
    var a: nat, b: nat, c: nat, d: nat := src[p], src[p + 1], src[p + 2], src[p + 3];
    a + 0x100 * b + 0x1_0000 * c + 0x100_0000 * d
  }

  function TableSize(small: bool): nat { if small then 8192 else 4096 }

  /** Small tables hash 4 bytes, the others the low 5 of 8 bytes. */
  function HashPosition(src: Data, p: nat, small: bool): (h: nat)
    requires p + 8 <= |src|
    ensures h < TableSize(small)
  {
    if small then Read32(src, p) * 2654435761 % 0x1_0000_0000 / 0x8_0000
    else
      var sequence := Read32(src, p) + 0x1_0000_0000 * Read32(src, p + 4);
      sequence * 0x100_0000 % 0x1_0000_0000_0000_0000 * 889523592379 % 0x1_0000_0000_0000_0000 / 0x10_0000_0000_0000
  }

  predicate Same4(src: Data, a: nat, b: nat)
    requires a + 4 <= |src| && b + 4 <= |src|
  {
    src[a..a + 4] == src[b..b + 4]
  }

  /** All positions in the table lie before `ip`. */
  ghost predicate TableOk(table: array<int>, small: bool, ip: int)
    reads table
  {
    table.Length == TableSize(small) && forall h :: 0 <= h < table.Length ==> 0 <= table[h] < ip
  }

  /** A usable earlier occurrence of the 4 bytes at `ip`. */
  ghost predicate MatchAt(src: Data, at: int, ip: int)
  {
    0 <= at < ip <= at + MAX_DISTANCE && ip + MFLIMIT <= |src| && Same4(src, at, ip)
  }

  // ----- the search -----

  /** The positions that a search tries: after the first two, steps of 1 that grow by 1 every 64 tries. */
  function Visit(start: nat, k: nat): (p: nat)
    ensures p >= start
  {
    if k == 0 then start else Visit(start, k - 1) + if k == 1 then 1 else (k + 62) / SKIP_TRIGGER
  }

  lemma {:induction false} VisitRises(start: nat, i: nat, k: nat)
    requires i <= k
    ensures Visit(start, i) + (k - i) <= Visit(start, k)
    decreases k
  {
    if i < k { VisitRises(start, i, k - 1); }
  }

  /** The last position with this hash: one tried before try `k`, or else what the table had. */
  function Latest(src: Data, table: seq<int>, small: bool, start: nat, k: nat, h: nat): int
    requires |table| == TableSize(small) && h < |table| && (k > 0 ==> Visit(start, k - 1) + 8 <= |src|)
  {
    if k == 0 then table[h]
    else if HashPosition(src, Visit(start, k - 1), small) == h then Visit(start, k - 1)
    else
      VisitRises(start, if k == 1 then 0 else k - 2, k - 1);
      Latest(src, table, small, start, k - 1, h)
  }

  /** Try `k` finds the 4 bytes at its position at the last one with their hash, near enough. */
  predicate Hits(src: Data, table: seq<int>, small: bool, start: nat, k: nat)
    requires |table| == TableSize(small)
  {
    Visit(start, k) + 8 <= |src| &&
    var ip := Visit(start, k);
    VisitRises(start, if k == 0 then 0 else k - 1, k);
    var at := Latest(src, table, small, start, k, HashPosition(src, ip, small));
    0 <= at <= |src| - 4 && (small || at + MAX_DISTANCE >= ip) && Same4(src, at, ip)
  }

  /** The match is that of the first try that hits. */
  ghost predicate FirstHit(src: Data, table: seq<int>, small: bool, start: nat, ip: nat, at: nat)
    requires |table| == TableSize(small)
  {
    exists k: nat ::
      Hits(src, table, small, start, k) && ip == Visit(start, k) &&
      at == Latest(src, table, small, start, k, HashPosition(src, ip, small)) &&
      forall j :: 0 <= j < k ==> !Hits(src, table, small, start, j)
  }

  /** No try hits, apart from the last one before the end, which is not looked at. */
  ghost predicate NoHit(src: Data, table: seq<int>, small: bool, start: nat)
    requires |table| == TableSize(small)
  {
    forall j: nat :: Visit(start, j + 1) + MFLIMIT <= |src| ==> !Hits(src, table, small, start, j)
  }

  lemma VisitStart(src: Data, table: seq<int>, small: bool, start: nat)
    requires |table| == TableSize(small)
    ensures Visit(start, 0) == start
    ensures forall h :: 0 <= h < |table| ==> Latest(src, table, small, start, 0, h) == table[h]
  {
  }

  lemma VisitNext(start: nat, k: nat)
    ensures Visit(start, k + 1) == Visit(start, k) + if k == 0 then 1 else (k + 63) / SKIP_TRIGGER
  {
  }

  lemma LatestNext(src: Data, table: seq<int>, small: bool, start: nat, k: nat, h: nat)
    requires |table| == TableSize(small) && h < |table| && Visit(start, k) + 8 <= |src|
    ensures k > 0 ==> Visit(start, k - 1) + 8 <= |src|
    ensures Latest(src, table, small, start, k + 1, h) ==
            if HashPosition(src, Visit(start, k), small) == h then Visit(start, k)
            else Latest(src, table, small, start, k, h)
  {
    if k > 0 { VisitRises(start, k - 1, k); }
  }

  lemma HitsIs(src: Data, table: seq<int>, small: bool, start: nat, k: nat, at: nat)
    requires |table| == TableSize(small) && Visit(start, k) + 8 <= |src| && at < Visit(start, k)
    requires k > 0 ==> Visit(start, k - 1) + 8 <= |src|
    requires at == Latest(src, table, small, start, k, HashPosition(src, Visit(start, k), small))
    ensures Hits(src, table, small, start, k) <==>
            (small || at + MAX_DISTANCE >= Visit(start, k)) && Same4(src, at, Visit(start, k))
  {
  }

  /** Searches forward in growing steps, to the first try that hits; the last 12 bytes are out of reach. */
  method FindMatch(src: Data, table: array<int>, small: bool, start: nat) returns (found: bool, ip: nat, at: nat)
    requires TableOk(table, small, start) && 0 < start && start + MFLIMIT <= |src| + 1 && (small ==> |src| < LIMIT_64K)
    modifies table
    ensures found ==> start <= ip && MatchAt(src, at, ip) && TableOk(table, small, ip + 1)
    ensures if found then FirstHit(src, old(table[..]), small, start, ip, at)
            else NoHit(src, old(table[..]), small, start)
  {
    hide HashPosition; hide TableSize; hide Visit; hide Latest; hide Hits; hide Same4;
    var forwardIp, step, searchMatchNb := start, 1, SKIP_TRIGGER;
    var forwardH: nat := HashPosition(src, start, small);
    ghost var was, k: nat := table[..], 0;
    VisitStart(src, was, small, start);
    while true
      invariant start <= forwardIp && forwardIp + MFLIMIT <= |src| + 1 && step >= 1 && searchMatchNb >= SKIP_TRIGGER
      invariant TableOk(table, small, forwardIp) && 0 <= forwardH < table.Length
      invariant forwardIp == Visit(start, k) && forwardH == HashPosition(src, forwardIp, small)
      invariant searchMatchNb == SKIP_TRIGGER + k && step == if k == 0 then 1 else (k + 63) / SKIP_TRIGGER
      invariant k > 0 ==> Visit(start, k - 1) + 8 <= |src|
      invariant forall h :: 0 <= h < table.Length ==> table[h] == Latest(src, was, small, start, k, h)
      invariant forall j :: 0 <= j < k ==> !Hits(src, was, small, start, j)
      decreases |src| - forwardIp
    {
      var h := forwardH;
      ip := forwardIp;
      VisitNext(start, k);
      forwardIp := forwardIp + step;
      step := searchMatchNb / 64;
      searchMatchNb := searchMatchNb + 1;
      if forwardIp > |src| - MFLIMIT {
        forall j: nat | Visit(start, j + 1) + MFLIMIT <= |src| ensures !Hits(src, was, small, start, j) {
          if j >= k { VisitRises(start, k + 1, j + 1); }
        }
        return false, ip, 0;
      }
      at := table[h];
      HitsIs(src, was, small, start, k, at);
      forall x | 0 <= x < table.Length { LatestNext(src, was, small, start, k, x); }
      forwardH := HashPosition(src, forwardIp, small);
      table[h] := ip;
      if (small || at + MAX_DISTANCE >= ip) && Same4(src, at, ip) {
        return true, ip, at;
      }
      k := k + 1;
    }
  }

  /** One byte over and over, long enough for a match. */
  ghost predicate Uniform(src: Data)
  {
    |src| > MIN_LENGTH && forall i :: 0 <= i < |src| ==> src[i] == src[0]
  }

  ghost predicate AllZero(table: seq<int>) { forall h :: 0 <= h < |table| ==> table[h] == 0 }

  /** Such an input matches at the very first try. */
  lemma HitsAtOnce(src: Data, table: seq<int>, small: bool)
    requires Uniform(src) && AllZero(table) && |table| == TableSize(small)
    ensures Hits(src, table, small, 1, 0) && !NoHit(src, table, small, 1)
    ensures forall ip: nat, at: nat :: FirstHit(src, table, small, 1, ip, at) ==> ip == 1 && at == 0
  {
    hide HashPosition; hide TableSize;
    assert src[0..4] == src[1..5];
    VisitNext(1, 0);
    assert Visit(1, 0 + 1) + MFLIMIT <= |src|;
  }

  lemma {:induction false} UniformRun(src: Data, p: nat, dist: nat, limit: nat)
    requires Uniform(src) && dist <= p <= limit <= |src|
    ensures RunLength(src, p, dist, limit) == limit - p
    decreases limit - p
  {
    if p < limit { UniformRun(src, p + 1, dist, limit); }
  }

  /** The block for such an input: one byte, copied on to the last five. */
  function UniformBlock(src: Data): Block
    requires |src| > MIN_LENGTH
  {
    Block([Sequence(src[..1], 1, |src| - 1 - LASTLITERALS)], src[|src| - LASTLITERALS..])
  }

  lemma UniformSize(src: Data)
    requires |src| > MIN_LENGTH
    ensures |EncodeBlock(UniformBlock(src))| <= |src| / 255 + 11
  {
    hide Extension;
    var b := UniformBlock(src);
    var q := b.sequences[0];
    assert EncodeSequences(b.sequences) == EncodeSequences([]) + EncodeSequence(q);
    assert |EncodeSequences([])| == 0;
  }

  /** Moves both ends back while the bytes before them agree. */
  method CatchUp(src: Data, anchor: nat, ip0: nat, at0: nat) returns (ip: nat, at: nat)
    requires MatchAt(src, at0, ip0) && anchor <= ip0
    ensures anchor <= ip <= ip0 && ip - at == ip0 - at0 && MatchAt(src, at, ip)
    ensures forall k :: ip <= k < ip0 + 4 ==> src[k] == src[k - (ip0 - at0)]
    ensures at0 == 0 ==> ip == ip0
  {
    ip, at := ip0, at0;
    Same4Bytes(src, at0, ip0);
    ghost var dist := ip0 - at0;
    while ip > anchor && at > 0 && src[ip - 1] == src[at - 1]
      invariant anchor <= ip <= ip0 && at <= ip && ip - at == dist
      invariant forall k :: ip <= k < ip0 + 4 ==> src[k] == src[k - dist]
      invariant at0 == 0 ==> ip == ip0
    {
      ip, at := ip - 1, at - 1;
    }
    BytesSame4(src, at, ip, dist);
  }

  lemma Same4Bytes(src: Data, a: nat, b: nat)
    requires a <= b && b + 4 <= |src| && Same4(src, a, b)
    ensures forall k :: b <= k < b + 4 ==> src[k] == src[k - (b - a)]
  {
    forall k | b <= k < b + 4 ensures src[k] == src[k - (b - a)] {
      assert src[b..b + 4][k - b] == src[a..a + 4][k - b];
    }
  }

  lemma BytesSame4(src: Data, a: nat, b: nat, dist: nat)
    requires a + dist == b && b + 4 <= |src| && forall k :: b <= k < b + 4 ==> src[k] == src[k - dist]
    ensures Same4(src, a, b)
  {
    assert src[b..b + 4] == [src[b], src[b + 1], src[b + 2], src[b + 3]];
    assert src[a..a + 4] == [src[b - dist], src[b + 1 - dist], src[b + 2 - dist], src[b + 3 - dist]];
  }

  // ----- counting -----

  /** The number of leading bytes in which two different 8-byte words agree. */
  function CommonBytes(a: Data, b: Data): (r: nat)
    requires |a| == |b| && a != b
    ensures r < |a| && a[r] != b[r] && forall k :: 0 <= k < r ==> a[k] == b[k]
  {
    if a[0] != b[0] then 0
    else
      assert a == [a[0]] + a[1..] && b == [b[0]] + b[1..];
      var r := 1 + CommonBytes(a[1..], b[1..]);
      assert forall k :: 0 < k < r ==> a[1..][k - 1] == a[k] && b[1..][k - 1] == b[k];
      r
  }

  /** The length of the run from `p` on that repeats the bytes `dist` before it. */
  function RunLength(src: Data, p: nat, dist: nat, limit: nat): (n: nat)
    requires dist <= p <= limit <= |src|
    ensures p + n <= limit
    decreases limit - p
  {
    if p < limit && src[p] == src[p - dist] then 1 + RunLength(src, p + 1, dist, limit) else 0
  }

  ghost predicate Agree(src: Data, from: nat, to: nat, dist: nat)
    requires dist <= from && to <= |src|
  {
    forall k :: from <= k < to ==> src[k] == src[k - dist]
  }

  lemma {:induction false} RunAgrees(src: Data, p: nat, dist: nat, limit: nat)
    requires dist <= p <= limit <= |src|
    ensures var n := RunLength(src, p, dist, limit);
            Agree(src, p, p + n, dist) && (p + n < limit ==> src[p + n] != src[p + n - dist])
    decreases limit - p
  {
    if p < limit && src[p] == src[p - dist] { RunAgrees(src, p + 1, dist, limit); }
  }

  function Word(src: Data, p: nat, width: nat): (r: Data)
    requires p + width <= |src|
    ensures |r| == width
  {
    src[p..p + width]
  }

  lemma WordSplits(src: Data, p: nat, width: nat)
    requires 0 < width && p + width <= |src|
    ensures Word(src, p, width) == [src[p]] + Word(src, p + 1, width - 1)
    ensures Word(src, p, width)[0] == src[p] && Word(src, p, width)[1..] == Word(src, p + 1, width - 1)
  {
  }

  /** Equal words lengthen the run by their width; a word that differs ends it. */
  lemma {:induction false} RunWord(src: Data, p: nat, width: nat, dist: nat, limit: nat)
    requires dist <= p && p + width <= limit <= |src|
    ensures Word(src, p - dist, width) == Word(src, p, width) ==>
              RunLength(src, p, dist, limit) == width + RunLength(src, p + width, dist, limit)
    ensures Word(src, p - dist, width) != Word(src, p, width) ==>
              RunLength(src, p, dist, limit) == CommonBytes(Word(src, p - dist, width), Word(src, p, width))
    decreases width
  {
    hide Word;
    if width > 0 {
      var a, b := Word(src, p - dist, width), Word(src, p, width);
      RunWord(src, p + 1, width - 1, dist, limit);
      WordSplits(src, p, width);
      WordSplits(src, p - dist, width);
      assert a == b <==> a[0] == b[0] && a[1..] == b[1..] by { assert a == [a[0]] + a[1..] && b == [b[0]] + b[1..]; }
    }
  }

  /** The longest common run from `start` on, in words of 8, then 4, 2 and 1 bytes. */
  method Count(src: Data, start: nat, at: nat, limit: nat) returns (n: nat)
    requires at <= start <= limit <= |src|
    ensures n == RunLength(src, start, start - at, limit)
  {
    hide Word; hide RunLength; hide CommonBytes;
    var p, dist := start, start - at;
    while p < limit - 7
      invariant start <= p <= limit && RunLength(src, start, dist, limit) == p - start + RunLength(src, p, dist, limit)
    {
      RunWord(src, p, 8, dist, limit);
      var a, b := Word(src, p - dist, 8), Word(src, p, 8);
      if a != b { return p + CommonBytes(a, b) - start; }
      p := p + 8;
    }
    if p < limit - 3 {
      RunWord(src, p, 4, dist, limit);
      if Word(src, p - dist, 4) == Word(src, p, 4) { p := p + 4; }
    }
    if p < limit - 1 {
      RunWord(src, p, 2, dist, limit);
      if Word(src, p - dist, 2) == Word(src, p, 2) { p := p + 2; }
    }
    RunByte(src, p, dist, limit);
    if p < limit && src[p - dist] == src[p] { p := p + 1; }
    n := p - start;
  }

  lemma RunByte(src: Data, p: nat, dist: nat, limit: nat)
    requires dist <= p <= limit <= |src| && RunLength(src, p, dist, limit) < 2
    ensures RunLength(src, p, dist, limit) == if p < limit && src[p - dist] == src[p] then 1 else 0
  {
  }

  // ----- writing lengths -----

  /** Bytes of 255 and the remainder are the extension. */
  lemma {:induction false} ExtensionIs(s: Data, n: nat)
    requires |s| == n / 255 + 1 && s[n / 255] == n % 255 && forall i :: 0 <= i < n / 255 ==> s[i] == 255
    ensures s == Extension(n)
  {
    if n >= 255 {
      assert (n - 255) / 255 == n / 255 - 1 && (n - 255) % 255 == n % 255;
      ExtensionIs(s[1..], n - 255);
      assert s == [255] + s[1..];
    } else {
      assert s == [n];
    }
  }

  /** One byte at a time, as for literals. */
  method PutExtension(dest: array<byte>, op: nat, length: nat) returns (end: nat)
    requires op + length / 255 + 1 <= dest.Length
    modifies dest
    ensures end == op + length / 255 + 1 && dest[..op] == old(dest[..op]) && dest[op..end] == Extension(length)
  {
    hide Extension;
    var len := length;
    end := op;
    while len >= 255
      invariant op <= end && 255 * (end - op) + len == length && len >= 0
      invariant dest[..op] == old(dest[..op]) && forall i :: op <= i < end ==> dest[i] == 255
    {
      Quotient(length, end - op, len);
      dest[end] := 255;
      end, len := end + 1, len - 255;
    }
    Quotient(length, end - op, len);
    dest[end] := len;
    end := end + 1;
    ExtensionIs(dest[op..end], length);
  }

  lemma Quotient(n: nat, q: nat, r: nat)
    requires 255 * q + r == n
    ensures q <= n / 255 && (r >= 255 ==> q < n / 255) && (r < 255 ==> q == n / 255 && r == n % 255)
    ensures n / 255 == q + r / 255 && n % 255 == r % 255
  {
  }

  /** Four bytes at a time, as for matches; up to 3 bytes after the end are overwritten. */
  method PutExtension4(dest: array<byte>, op: nat, length: nat) returns (end: nat)
    requires op + length / 255 + 4 <= dest.Length
    modifies dest
    ensures end == op + length / 255 + 1 && dest[..op] == old(dest[..op]) && dest[op..end] == Extension(length)
  {
    hide Extension;
    var len := length;
    end := op;
    forall k | 0 <= k < 4 { dest[end + k] := 255; }
    while len >= 4 * 255
      invariant op <= end && 255 * (end - op) + len == length && len >= 0
      invariant op + length / 255 + 4 <= dest.Length
      invariant end + 4 <= dest.Length && dest[..op] == old(dest[..op]) && forall i :: op <= i < end + 4 ==>
                dest[i] == 255
    {
      Quotient(length, end - op + 4, len - 4 * 255);
      end := end + 4;
      forall k | 0 <= k < 4 { dest[end + k] := 255; }
      len := len - 4 * 255;
    }
    Quotient(length, end - op, len);
    end := end + len / 255;
    dest[end] := len % 255;
    end := end + 1;
    ExtensionIs(dest[op..end], length);
  }

  // ----- room -----

  /** The size announced by LZ4_compressBound for a supported size. */
  function Bound(n: nat): nat { n + n / 255 + 16 }

  lemma WithinBound(x: nat, n: nat)
    requires 255 * x <= 256 * n + 495
    ensures x + 14 <= Bound(n)
  {
  }

  lemma ExtensionRoom(n: nat)
    ensures 255 * |FieldExtension(n)| <= n + 240 && (n < MASK ==> |FieldExtension(n)| == 0)
  {
    hide Extension;
  }

  /** Token and literals of a sequence take at most 1/255 more than the literals, and 495/255 bytes. */
  lemma LiteralRoom(literals: Data)
    ensures 255 * (1 + |LiteralPart(literals)|) <= 256 * |literals| + 495
  {
    hide FieldExtension;
    ExtensionRoom(|literals|);
  }

  /** A whole sequence takes at most 1/255 more than what it stands for. */
  lemma SequenceRoom(q: Sequence)
    requires q.length >= MINMATCH
    ensures 255 * |EncodeSequence(q)| <= 256 * (|q.literals| + q.length)
  {
    hide FieldExtension;
    ExtensionRoom(|q.literals|);
    ExtensionRoom(Code(q));
  }

  // ----- writing a sequence -----

  /** The token of a literal run and what does not fit into it; a match length is added to the token later. */
  method PutRun(dest: array<byte>, op: nat, length: nat) returns (end: nat)
    requires op + 1 + |FieldExtension(length)| <= dest.Length
    modifies dest
    ensures end == op + 1 + |FieldExtension(length)|
    ensures dest[..end] == old(dest[..op]) + ([Token(length, 0)] + FieldExtension(length))
  {
    hide Extension;
    ghost var was := dest[..op];
    end := op + 1;
    if length >= MASK {
      dest[op] := MASK * 16;
      ghost var token := dest[..end];
      assert token == was + [Token(length, 0)];
      end := PutExtension(dest, end, length - MASK);
      assert dest[..end] == token + FieldExtension(length);
    } else {
      dest[op] := length * 16;
      assert dest[..end] == was + [Token(length, 0)];
    }
  }

  /** Token and literals. */
  method PutLiterals(src: Data, dest: array<byte>, op: nat, anchor: nat, ip: nat) returns (end: nat)
    requires anchor <= ip && ip + 8 <= |src| && op + 1 + |LiteralPart(src[anchor..ip])| + 8 <= dest.Length
    modifies dest
    ensures end == op + 1 + |LiteralPart(src[anchor..ip])|
    ensures dest[..end] == old(dest[..op]) + ([Token(ip - anchor, 0)] + LiteralPart(src[anchor..ip]))
  {
    hide FieldExtension; hide Token;
    var litLength := ip - anchor;
    ghost var was := dest[..op];
    var start := PutRun(dest, op, litLength);
    ghost var head := dest[..start];
    WildCopyIn(dest, start, src, anchor, start + litLength);
    end := start + litLength;
    RunWritten(was, head, src[anchor..ip], dest[..end]);
  }

  lemma RunWritten(was: Data, head: Data, literals: Data, out: Data)
    requires head == was + ([Token(|literals|, 0)] + FieldExtension(|literals|))
    requires |out| == |head| + |literals| && out[..|head|] == head && out[|head|..] == literals
    ensures out == was + ([Token(|literals|, 0)] + LiteralPart(literals))
  {
    hide FieldExtension; hide Token;
    assert out == head + literals;
  }

  /** Offset and match length. */
  method PutMatch(dest: array<byte>, token: nat, op: nat, offset: nat, code: nat) returns (end: nat)
    requires op + 2 + |FieldExtension(code)| + 3 <= dest.Length
    requires token < op && dest[token] % 16 == 0 && offset <= MAX_DISTANCE
    modifies dest
    ensures end == op + 2 + |FieldExtension(code)|
    ensures dest[..end] == old(dest[..op])[token := old(dest[token]) + Field(code)] +
            (Low16(offset) + FieldExtension(code))
  {
    hide FieldExtension; hide Low16;
    ghost var was: Data := dest[..op];
    ghost var full: byte := was[token] + Field(code);
    hide Field;
    PutOffset(dest, op, offset);
    CompleteToken(dest, token, op + 2, code);
    end := op + 2;
    ghost var head := dest[..end];
    TokenUpdated(was, Low16(offset), token, full);
    end := PutMatchLength(dest, end, code);
    MatchWritten(head, was[token := full], Low16(offset), FieldExtension(code), dest[..end]);
  }

  /** What of the match length does not fit into the token. */
  method PutMatchLength(dest: array<byte>, op: nat, code: nat) returns (end: nat)
    requires op + |FieldExtension(code)| + 3 <= dest.Length
    modifies dest
    ensures end == op + |FieldExtension(code)| && dest[..op] == old(dest[..op]) && dest[op..end] == FieldExtension(code)
  {
    hide Extension;
    end := op;
    if code >= MASK { end := PutExtension4(dest, end, code - MASK); }
  }

  /** Adds the match length to the token. */
  method CompleteToken(dest: array<byte>, token: nat, op: nat, code: nat)
    requires token < op <= dest.Length && dest[token] % 16 == 0
    modifies dest
    ensures dest[..op] == old(dest[..op])[token := old(dest[token]) + Field(code)]
  {
    dest[token] := dest[token] + Field(code);
  }

  lemma MatchWritten(head: Data, begin: Data, offset: Data, extension: Data, out: Data)
    requires head == begin + offset
    requires |out| == |head| + |extension| && out[..|head|] == head && out[|head|..] == extension
    ensures out == begin + (offset + extension)
  {
    assert out == head + extension;
  }

  lemma TokenUpdated(a: Data, b: Data, token: nat, value: byte)
    requires token < |a|
    ensures (a + b)[token := value] == a[token := value] + b
  {
  }

  method PutOffset(dest: array<byte>, op: nat, offset: nat)
    requires op + 2 <= dest.Length && offset <= MAX_DISTANCE
    modifies dest
    ensures dest[..op + 2] == old(dest[..op]) + Low16(offset)
  {
    dest[op], dest[op + 1] := offset % 0x100, offset / 0x100;
    assert offset / 0x100 % 0x100 == offset / 0x100;
  }

  // ----- the block so far -----

  /** The output so far means the input before `anchor` and has not outgrown it by more than 1/255. */
  ghost predicate Done(src: Data, out: Data, sequences: seq<Sequence>, anchor: nat)
  {
    anchor <= |src| && SequencesOk(sequences, |src|) && Expand(sequences) == src[..anchor] &&
    out == EncodeSequences(sequences) && 255 * |out| <= 256 * anchor
  }

  /** Token and literals of the next sequence have been written. */
  ghost predicate Pending(src: Data, out: Data, sequences: seq<Sequence>, anchor: nat, ip: nat, token: nat)
  {
    anchor <= ip <= |src| && token < |out| && Done(src, out[..token], sequences, anchor) &&
    out[token..] == [Token(ip - anchor, 0)] + LiteralPart(src[anchor..ip])
  }

  lemma NothingDone(src: Data)
    ensures Done(src, [], [], 0)
  {
  }

  lemma NowPending(src: Data, out: Data, sequences: seq<Sequence>, anchor: nat, ip: nat, out': Data)
    requires Done(src, out, sequences, anchor) && anchor <= ip <= |src|
    requires out' == out + ([Token(ip - anchor, 0)] + LiteralPart(src[anchor..ip]))
    ensures Pending(src, out', sequences, anchor, ip, |out|)
  {
    hide Done; hide Token; hide LiteralPart;
    assert out'[..|out|] == out;
  }

  /** Room for token, literals and the overshoot of the copy. */
  lemma RoomForLiterals(src: Data, out: Data, sequences: seq<Sequence>, anchor: nat, ip: nat)
    requires Done(src, out, sequences, anchor) && anchor <= ip && ip + MFLIMIT <= |src|
    ensures |out| + 1 + |LiteralPart(src[anchor..ip])| + 8 <= Bound(|src|)
  {
    hide LiteralPart; hide SequencesOk; hide Expand; hide EncodeSequences;
    LiteralRoom(src[anchor..ip]);
    WithinBound(|out| + 1 + |LiteralPart(src[anchor..ip])| + 8, |src|);
  }

  /** The sequence that a finished match makes of the pending literals. */
  function Finished(src: Data, anchor: nat, ip: nat, at: nat, code: nat): Sequence
    requires anchor <= ip <= |src| && at <= ip
  {
    Sequence(src[anchor..ip], ip - at, code + MINMATCH)
  }

  /** Room for offset, match length and the overshoot of its 4-byte writes. */
  lemma RoomForMatch(src: Data, out: Data, sequences: seq<Sequence>, anchor: nat, ip: nat, token: nat, at: nat,
                     code: nat)
    requires Pending(src, out, sequences, anchor, ip, token) && at <= ip && ip + MINMATCH + code + LASTLITERALS <= |src|
    ensures |out| + 2 + |FieldExtension(code)| == token + |EncodeSequence(Finished(src, anchor, ip, at, code))|
    ensures 255 * (|out| + 2 + |FieldExtension(code)|) <= 256 * (ip + MINMATCH + code)
    ensures |out| + 2 + |FieldExtension(code)| + 3 <= Bound(|src|)
  {
    hide SequencesOk; hide Expand; hide EncodeSequences; hide FieldExtension; hide Token;
    SequenceRoom(Finished(src, anchor, ip, at, code));
    assert |out| == token + |out[token..]|;
    WithinBound(|out| + 2 + |FieldExtension(code)| + 3, |src|);
  }

  /** A counted match repeats what stands `ip - at` before it. */
  lemma MatchRepeats(src: Data, ip: nat, at: nat, code: nat)
    requires MatchAt(src, at, ip) && code == RunLength(src, ip + MINMATCH, ip - at, |src| - LASTLITERALS)
    ensures src[..ip + MINMATCH + code] == CopyMatch(src[..ip], ip - at, code + MINMATCH)
  {
    hide CopyMatch; hide RunLength;
    var dist, end := ip - at, ip + MINMATCH + code;
    Same4Bytes(src, at, ip);
    RunAgrees(src, ip + MINMATCH, dist, |src| - LASTLITERALS);
    var s := src[..end];
    forall i | ip <= i < end ensures s[i] == s[i - dist] {
      assert i < ip + MINMATCH ==> src[i] == src[i - (ip - at)];
    }
    assert Repeats(s, ip, end, dist);
    RepeatIsCopy(s, ip, dist);
    assert s[..ip] == src[..ip];
  }

  lemma TokenAdds(literals: nat, code: nat)
    ensures Token(literals, 0) + Field(code) == Token(literals, code) && Token(literals, 0) % 16 == 0
  {
  }

  /** Adding the match length to the token and appending the rest completes the sequence. */
  lemma SequenceWritten(out: Data, token: nat, q: Sequence, out': Data)
    requires token < |out| && out[token..] == [Token(|q.literals|, 0)] + LiteralPart(q.literals)
    requires out[token] + Field(Code(q)) < 0x100
    requires out' == out[token := out[token] + Field(Code(q))] + MatchPart(q)
    ensures out' == out[..token] + EncodeSequence(q)
  {
    hide LiteralPart; hide MatchPart; hide Token; hide Field;
    TokenAdds(|q.literals|, Code(q));
    assert out[token] == out[token..][0];
    assert out == out[..token] + ([Token(|q.literals|, 0)] + LiteralPart(q.literals));
    assert out[token := out[token] + Field(Code(q))] ==
      out[..token] + ([Token(|q.literals|, Code(q))] + LiteralPart(q.literals));
  }

  lemma MatchDone(src: Data, out: Data, sequences: seq<Sequence>, anchor: nat, ip: nat, token: nat, at: nat, code: nat,
                  out': Data)
    requires Pending(src, out, sequences, anchor, ip, token) && MatchAt(src, at, ip)
    requires code == RunLength(src, ip + MINMATCH, ip - at, |src| - LASTLITERALS)
    requires out[token] + Field(code) < 0x100
    requires out' == out[token := out[token] + Field(code)] + (Low16(ip - at) + FieldExtension(code))
    ensures Done(src, out', sequences + [Finished(src, anchor, ip, at, code)], ip + MINMATCH + code)
  {
    hide CopyMatch; hide RunLength; hide EncodeSequence; hide Token; hide Field; hide FieldExtension; hide Low16;
    hide Same4; hide SequencesOk;
    hide Expand; hide EncodeSequences; hide LiteralPart;
    var q := Finished(src, anchor, ip, at, code);
    RoomForMatch(src, out, sequences, anchor, ip, token, at, code);
    SequenceWritten(out, token, q, out');
    assert |src[..anchor]| == anchor;
    AppendOk(sequences, q, |src|);
    MatchRepeats(src, ip, at, code);
    assert src[..anchor] + src[anchor..ip] == src[..ip];
  }

  // ----- the encoder -----

  /** Completes the pending sequence with its match. */
  method FinishMatch(src: Data, dest: array<byte>, token: nat, op0: nat, ip: nat, at: nat, anchor: nat,
                     ghost sequences: seq<Sequence>)
    returns (op: nat, code: nat)
    requires |src| <= MAX_INPUT_SIZE && Bound(|src|) <= dest.Length && op0 <= dest.Length
    requires Pending(src, dest[..op0], sequences, anchor, ip, token) && MatchAt(src, at, ip)
    modifies dest
    ensures op <= dest.Length && anchor <= ip <= |src| &&
            code == RunLength(src, ip + MINMATCH, ip - at, |src| - LASTLITERALS)
    ensures Done(src, dest[..op], sequences + [Finished(src, anchor, ip, at, code)], ip + MINMATCH + code)
  {
    hide RunLength; hide Pending; hide Done; hide Bound; hide FieldExtension; hide Field; hide Same4; hide Low16;
    ghost var out := dest[..op0];
    code := Count(src, ip + MINMATCH, at + MINMATCH, |src| - LASTLITERALS);
    RoomForMatch(src, out, sequences, anchor, ip, token, at, code);
    TokenEmpty(src, out, sequences, anchor, ip, token);
    op := PutMatch(dest, token, op0, ip - at, code);
    MatchDone(src, out, sequences, anchor, ip, token, at, code, dest[..op]);
  }

  /** Enters the positions around the end of a match and looks for another one there. */
  method NextMatch(src: Data, table: array<int>, small: bool, ip: nat) returns (found: bool, at: nat)
    requires TableOk(table, small, ip) && ip + MFLIMIT <= |src| && ip >= MINMATCH
    modifies table
    ensures TableOk(table, small, ip + 1) && (found ==> MatchAt(src, at, ip))
  {
    hide HashPosition; hide Same4; hide TableSize;
    var h := HashPosition(src, ip - 2, small);
    table[h] := ip - 2;
    h := HashPosition(src, ip, small);
    at := table[h];
    table[h] := ip;
    found := at + MAX_DISTANCE >= ip && Same4(src, at, ip);
  }

  /** The token of a sequence without literals. */
  method PutEmptyRun(src: Data, dest: array<byte>, op: nat, anchor: nat, ghost sequences: seq<Sequence>)
    requires op <= dest.Length && Done(src, dest[..op], sequences, anchor) && anchor + MFLIMIT <= |src| &&
             Bound(|src|) <= dest.Length
    modifies dest
    ensures op + 1 <= dest.Length && Pending(src, dest[..op + 1], sequences, anchor, anchor, op)
  {
    hide Pending; hide Done; hide Bound; hide Token; hide LiteralPart;
    ghost var out := dest[..op];
    RoomForLiterals(src, out, sequences, anchor, anchor);
    dest[op] := 0;
    EmptyRun(src, anchor);
    assert dest[..op + 1] == out + [0];
    NowPending(src, out, sequences, anchor, anchor, dest[..op + 1]);
  }

  /** Matches one after the other, as long as the next one starts right where the last one ended. */
  method PutMatches(src: Data, dest: array<byte>, table: array<int>, small: bool, token0: nat, op0: nat, ip0: nat,
                    at0: nat,
                    anchor0: nat, ghost sequences0: seq<Sequence>)
    returns (op: nat, ip: nat, anchor: nat, more: bool, ghost sequences: seq<Sequence>)
    requires |src| <= MAX_INPUT_SIZE && Bound(|src|) <= dest.Length && op0 <= dest.Length
    requires Pending(src, dest[..op0], sequences0, anchor0, ip0, token0) && MatchAt(src, at0, ip0)
    requires TableOk(table, small, ip0 + MINMATCH + RunLength(src, ip0 + MINMATCH, ip0 - at0, |src| - LASTLITERALS))
    modifies dest, table
    ensures op <= dest.Length && anchor > ip0 && Done(src, dest[..op], sequences, anchor)
    ensures more ==> anchor < ip && ip + MFLIMIT <= |src| + 1 && TableOk(table, small, ip)
    ensures Uniform(src) && anchor0 == 0 && ip0 == 1 && at0 == 0 && sequences0 == [] ==>
              !more && Block(sequences, src[anchor..]) == UniformBlock(src)
  {
    hide RunLength; hide Pending; hide Done; hide Bound; hide TableOk; hide Same4; hide Uniform;
    var token, at := token0, at0;
    op, ip, anchor, more, sequences := op0, ip0, anchor0, true, sequences0;
    while true
      invariant ip0 <= ip && op <= dest.Length && Pending(src, dest[..op], sequences, anchor, ip, token) &&
                MatchAt(src, at, ip)
      invariant TableOk(table, small, ip + MINMATCH + RunLength(src, ip + MINMATCH, ip - at, |src| - LASTLITERALS))
      invariant Uniform(src) && anchor0 == 0 && ip0 == 1 && at0 == 0 ==>
                  sequences == sequences0 && anchor == 0 && ip == 1 && at == 0
      decreases |src| - ip
    {
      if Uniform(src) { UniformRun(src, ip + MINMATCH, ip - at, |src| - LASTLITERALS); }
      var code;
      op, code := FinishMatch(src, dest, token, op, ip, at, anchor, sequences);
      sequences := sequences + [Finished(src, anchor, ip, at, code)];
      ip := ip + MINMATCH + code;
      anchor := ip;
      if ip > |src| - MFLIMIT { return op, ip, anchor, false, sequences; }
      var found;
      found, at := NextMatch(src, table, small, ip);
      if !found { break; }
      token := op;
      PutEmptyRun(src, dest, op, anchor, sequences);
      op := op + 1;
      TableLater(table, small, ip + 1, ip + MINMATCH + RunLength(src, ip + MINMATCH, ip - at, |src| - LASTLITERALS));
    }
    ip := ip + 1;
  }

  lemma TableLater(table: array<int>, small: bool, ip: int, later: int)
    requires TableOk(table, small, ip) && ip <= later
    ensures TableOk(table, small, later)
  {
  }

  lemma TokenEmpty(src: Data, out: Data, sequences: seq<Sequence>, anchor: nat, ip: nat, token: nat)
    requires Pending(src, out, sequences, anchor, ip, token)
    ensures anchor <= ip && token < |out| && out[token] % 16 == 0
  {
    hide Done; hide LiteralPart;
    assert out[token] == out[token..][0];
    TokenAdds(ip - anchor, 0);
  }

  lemma EmptyRun(src: Data, ip: nat)
    requires ip <= |src|
    ensures [Token(ip - ip, 0)] + LiteralPart(src[ip..ip]) == [0]
  {
    hide LiteralPart; hide Token;
    ShortLast(src[ip..ip]);
    OneByte(Token(ip - ip, 0), LiteralPart(src[ip..ip]));
  }

  lemma OneByte(token: byte, rest: Data)
    requires |rest| == 0
    ensures [token] + rest == [token]
  {
  }

  /** The last literals. */
  method PutLast(src: Data, dest: array<byte>, op: nat, anchor: nat) returns (end: nat)
    requires anchor <= |src| && op + |EncodeLast(src[anchor..])| <= dest.Length
    modifies dest
    ensures end == op + |EncodeLast(src[anchor..])| && dest[..end] == old(dest[..op]) + EncodeLast(src[anchor..])
  {
    hide FieldExtension; hide Token;
    var lastRun := |src| - anchor;
    end := PutRun(dest, op, lastRun);
    ghost var head := dest[..end];
    forall k | 0 <= k < lastRun { dest[end + k] := src[anchor + k]; }
    end := end + lastRun;
    assert dest[..end] == head + src[anchor..];
  }

  lemma RoomForLast(src: Data, out: Data, sequences: seq<Sequence>, anchor: nat)
    requires Done(src, out, sequences, anchor)
    ensures |out| + |EncodeLast(src[anchor..])| <= Bound(|src|)
  {
    hide LiteralPart; hide SequencesOk; hide Expand; hide EncodeSequences; hide Token;
    LiteralRoom(src[anchor..]);
    WithinBound(|out| + |EncodeLast(src[anchor..])|, |src|);
  }

  lemma BlockDone(src: Data, out: Data, sequences: seq<Sequence>, anchor: nat)
    requires Done(src, out, sequences, anchor)
    ensures anchor <= |src|
    ensures var b := Block(sequences, src[anchor..]);
            BlockOk(b) && ExpandBlock(b) == src && EncodeBlock(b) == out + EncodeLast(src[anchor..])
  {
    hide SequencesOk; hide Expand; hide EncodeSequences; hide EncodeLast;
    assert src[..anchor] + src[anchor..] == src;
  }

  /** The counted match covers at least the 4 bytes that were found. */
  lemma Reaches(src: Data, ip: nat, at: nat, far: nat)
    requires MatchAt(src, at, ip) && ip + MINMATCH <= far <= |src| - LASTLITERALS
    requires forall k :: ip <= k < far ==> src[k] == src[k - (ip - at)]
    ensures far <= ip + MINMATCH + RunLength(src, ip + MINMATCH, ip - at, |src| - LASTLITERALS)
  {
    hide RunLength; hide Same4;
    RunAgrees(src, ip + MINMATCH, ip - at, |src| - LASTLITERALS);
  }

  /** Where the next search may start. */
  ghost predicate Searchable(src: Data, table: array<int>, small: bool, anchor: nat, ip: nat)
    reads table
  {
    0 < ip && anchor <= ip && ip + MFLIMIT <= |src| + 1 && TableOk(table, small, ip)
  }

  /** The next match with its ends moved back, and the literals before it. */
  method PutNextLiterals(src: Data, dest: array<byte>, table: array<int>, small: bool, op0: nat, ip0: nat, anchor: nat,
                         ghost sequences: seq<Sequence>)
    returns (found: bool, op: nat, ip: nat, at: nat)
    requires Bound(|src|) <= dest.Length && (small ==> |src| < LIMIT_64K)
    requires op0 <= dest.Length && Done(src, dest[..op0], sequences, anchor) &&
             Searchable(src, table, small, anchor, ip0)
    modifies dest, table
    ensures !found ==> op == op0 && dest[..op] == old(dest[..op0])
    ensures found ==> op <= dest.Length && anchor <= ip && MatchAt(src, at, ip) &&
                      Pending(src, dest[..op], sequences, anchor, ip, op0)
    ensures found ==> TableOk(table, small, ip + MINMATCH +
            RunLength(src, ip + MINMATCH, ip - at, |src| - LASTLITERALS))
    ensures Uniform(src) && AllZero(old(table[..])) && ip0 == 1 ==> found && ip == 1 && at == 0
  {
    hide Uniform; hide AllZero;
    hide Pending; hide Done; hide Bound; hide Same4; hide LiteralPart; hide RunLength; hide Token;
    hide FirstHit; hide NoHit; hide Visit; hide Latest; hide Hits;
    ghost var out := dest[..op0];
    op := op0;
    if Uniform(src) && AllZero(table[..]) { HitsAtOnce(src, table[..], small); }
    found, ip, at := FindMatch(src, table, small, ip0);
    if !found { return; }
    ghost var far := ip + MINMATCH;
    ip, at := CatchUp(src, anchor, ip, at);
    Reaches(src, ip, at, far);
    RoomForLiterals(src, out, sequences, anchor, ip);
    op := PutLiterals(src, dest, op, anchor, ip);
    NowPending(src, out, sequences, anchor, ip, dest[..op]);
    TableLater(table, small, far - MINMATCH + 1,
      ip + MINMATCH + RunLength(src, ip + MINMATCH, ip - at, |src| - LASTLITERALS));
  }

  /** One turn of the main loop. */
  method PutNext(src: Data, dest: array<byte>, table: array<int>, small: bool, op0: nat, ip0: nat, anchor0: nat,
                 ghost sequences0: seq<Sequence>)
    returns (op: nat, ip: nat, anchor: nat, more: bool, ghost sequences: seq<Sequence>)
    requires |src| <= MAX_INPUT_SIZE && Bound(|src|) <= dest.Length && (small ==> |src| < LIMIT_64K)
    requires op0 <= dest.Length && Done(src, dest[..op0], sequences0, anchor0)
    requires Searchable(src, table, small, anchor0, ip0)
    modifies dest, table
    ensures op <= dest.Length && anchor0 <= anchor && Done(src, dest[..op], sequences, anchor)
    ensures more ==> anchor0 < anchor && Searchable(src, table, small, anchor, ip)
    ensures Uniform(src) && AllZero(old(table[..])) && ip0 == 1 && anchor0 == 0 && sequences0 == [] ==>
              !more && Block(sequences, src[anchor..]) == UniformBlock(src)
  {
    hide Pending; hide Done; hide Bound; hide Same4; hide RunLength; hide TableOk; hide Uniform; hide AllZero;
    op, ip, anchor, more, sequences := op0, ip0, anchor0, false, sequences0;
    var found, at;
    found, op, ip, at := PutNextLiterals(src, dest, table, small, op0, ip0, anchor0, sequences0);
    if found {
      op, ip, anchor, more, sequences := PutMatches(src, dest, table, small, op0, op, ip, at, anchor0, sequences0);
    }
  }

  /** An empty table, with the first position entered. */
  method NewTable(src: Data, small: bool) returns (table: array<int>)
    requires |src| >= MIN_LENGTH
    ensures fresh(table) && Searchable(src, table, small, 0, 1) && AllZero(table[..])
  {
    hide HashPosition;
    table := new int[TableSize(small)](_ => 0);
    table[HashPosition(src, 0, small)] := 0;
  }

  /** Every input of a supported size becomes a well formed block that means it and fits the announced bound. */
  method CompressGeneric(src: Data, dest: array<byte>, small: bool) returns (n: nat, ghost b: Block)
    requires |src| <= MAX_INPUT_SIZE && Bound(|src|) <= dest.Length && (small ==> |src| < LIMIT_64K)
    modifies dest
    ensures n <= Bound(|src|) && dest[..n] == EncodeBlock(b) && BlockOk(b) && ExpandBlock(b) == src
    ensures Uniform(src) ==> n <= |src| / 255 + 11
  {
    hide AllZero; hide UniformBlock; hide Done; hide Bound; hide BlockOk; hide ExpandBlock; hide EncodeBlock;
    hide EncodeLast; hide Searchable;
    var anchor: nat, op: nat := 0, 0;
    ghost var sequences: seq<Sequence> := [];
    NothingDone(src);
    assert dest[..0] == [];
    if |src| >= MIN_LENGTH {
      var table := NewTable(src, small);
      var ip: nat, more := 1, true;
      while more
        invariant op <= dest.Length && anchor <= |src| && Done(src, dest[..op], sequences, anchor)
        invariant more ==> Searchable(src, table, small, anchor, ip)
        invariant Uniform(src) ==>
                    if more then ip == 1 && anchor == 0 && sequences == [] && AllZero(table[..])
                    else Block(sequences, src[anchor..]) == UniformBlock(src)
        decreases |src| - anchor, more
      {
        op, ip, anchor, more, sequences := PutNext(src, dest, table, small, op, ip, anchor, sequences);
        AnchorWithin(src, dest[..op], sequences, anchor);
      }
    }
    RoomForLast(src, dest[..op], sequences, anchor);
    BlockDone(src, dest[..op], sequences, anchor);
    b := Block(sequences, src[anchor..]);
    if Uniform(src) { UniformSize(src); }
    n := PutLast(src, dest, op, anchor);
  }

  lemma AnchorWithin(src: Data, out: Data, sequences: seq<Sequence>, anchor: nat)
    requires Done(src, out, sequences, anchor)
    ensures anchor <= |src|
  {
  }
}
