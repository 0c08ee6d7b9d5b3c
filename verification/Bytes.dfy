/** Bytes, fixed-width unsigned integers and the byte order used by the key-value store. */
module Bytes {

  type byte = x: int | 0 <= x < 0x100

  const TWO_64: int := 0x1_0000_0000_0000_0000

  type u64 = x: int | 0 <= x < 0x1_0000_0000_0000_0000

  type Data = seq<byte>

  datatype Option<+T> = None | Some(value: T)

  /** An exception thrown by a failed check is a `Thrown` result. */
  datatype Result<+T> = Returned(value: T) | Thrown {
    predicate IsFailure() { Thrown? }
    function PropagateFailure<U>(): Result<U> requires Thrown? { Thrown }
    function Extract(): T requires Returned? { value }
  }

  // ----- byte-wise order: memcmp first, then the shorter string is smaller -----

  predicate Less(a: Data, b: Data)
  {
    b != [] && (a == [] || a[0] < b[0] || (a[0] == b[0] && Less(a[1..], b[1..])))
  }

  lemma {:induction false} LessIrreflexive(a: Data)
    ensures !Less(a, a)
  {
    if a != [] { LessIrreflexive(a[1..]); }
  }

  lemma {:induction false} LessTransitive(a: Data, b: Data, c: Data)
    requires Less(a, b) && Less(b, c)
    ensures Less(a, c)
  {
    if a != [] && a[0] == b[0] && b[0] == c[0] {
      LessTransitive(a[1..], b[1..], c[1..]);
    }
  }

  lemma {:induction false} LessTotal(a: Data, b: Data)
    ensures a == b || Less(a, b) || Less(b, a)
  {
    if a != [] && b != [] && a[0] == b[0] {
      LessTotal(a[1..], b[1..]);
      if a[1..] == b[1..] {
        assert a == [a[0]] + a[1..];
        assert b == [b[0]] + b[1..];
      }
    }
  }

  lemma LessAsymmetric(a: Data, b: Data)
    requires Less(a, b)
    ensures !Less(b, a) && a != b
  {
    LessIrreflexive(a);
    if Less(b, a) { LessTransitive(a, b, a); }
  }

  /** Strings that share a prefix compare as their remainders do. */
  lemma {:induction false} LessAfterPrefix(p: Data, a: Data, b: Data)
    ensures Less(p + a, p + b) == Less(a, b)
  {
    if p == [] {
      assert p + a == a && p + b == b;
    } else {
      assert (p + a)[1..] == p[1..] + a && (p + b)[1..] == p[1..] + b;
      LessAfterPrefix(p[1..], a, b);
    }
  }

  /** Strings of one width followed by one more byte compare by the first part, then by the byte. */
  lemma {:induction false} LessAppend(a: Data, b: Data, c: byte, d: byte)
    requires |a| == |b|
    ensures Less(a + [c], b + [d]) == (Less(a, b) || (a == b && c < d))
  {
    if a == [] {
      assert a + [c] == [c] && b + [d] == [d];
    } else {
      assert (a + [c])[1..] == a[1..] + [c] && (b + [d])[1..] == b[1..] + [d];
      LessAppend(a[1..], b[1..], c, d);
      if a[0] == b[0] && a[1..] == b[1..] {
        assert a == [a[0]] + a[1..] && b == [b[0]] + b[1..];
      }
    }
  }

  /** A string is never below one of its prefixes. */
  lemma {:induction false} PrefixNotAbove(p: Data, k: Data)
    requires p <= k
    ensures !Less(k, p)
  {
    if p != [] {
      assert p[1..] <= k[1..];
      PrefixNotAbove(p[1..], k[1..]);
    }
  }

  /** The strings with one prefix are contiguous: a string at or above the prefix
      which does not have it is above every string which does. */
  lemma {:induction false} PrefixContiguous(p: Data, k: Data, q: Data)
    requires !Less(k, p) && !(p <= k) && p <= q
    ensures Less(q, k)
  {
    assert p != [];
    if k != [] && k[0] == p[0] {
      assert p[1..] <= q[1..];
      PrefixContiguous(p[1..], k[1..], q[1..]);
    }
  }

  // ----- fixed-width big-endian integers -----

  function Pow256(width: nat): (r: int)
    ensures r >= 1
  {
    if width == 0 then 1 else 256 * Pow256(width - 1)
  }

  lemma Pow256Of8()
    ensures Pow256(8) == TWO_64
  {
    assert Pow256(4) == 0x1_0000_0000;
  }

  /** The most significant byte first. */
  function BigEndian(n: nat, width: nat): (r: Data)
    ensures |r| == width
  {
    if width == 0 then [] else BigEndian(n / 256, width - 1) + [n % 256]
  }

  function FromBigEndian(s: Data): (r: nat)
  {
    if s == [] then 0 else FromBigEndian(s[..|s| - 1]) * 256 + s[|s| - 1]
  }

  lemma FromBigEndianAppend(a: Data, c: byte)
    ensures FromBigEndian(a + [c]) == FromBigEndian(a) * 256 + c
  {
    assert (a + [c])[..|a|] == a;
  }

  lemma {:induction false} BigEndianRoundTrip(n: nat, width: nat)
    requires n < Pow256(width)
    ensures FromBigEndian(BigEndian(n, width)) == n
  {
    if width != 0 {
      var q: nat, c: byte := n / 256, n % 256;
      assert n == q * 256 + c;
      assert BigEndian(n, width) == BigEndian(q, width - 1) + [c];
      assert q < Pow256(width - 1);
      hide BigEndian; hide FromBigEndian; hide Pow256;
      BigEndianRoundTrip(q, width - 1);
      FromBigEndianAppend(BigEndian(q, width - 1), c);
    }
  }

  lemma {:induction false} FromBigEndianBound(s: Data)
    ensures FromBigEndian(s) < Pow256(|s|)
  {
    if s != [] { FromBigEndianBound(s[..|s| - 1]); }
  }

  /** Numeric order and the byte order of the encodings are the same order. */
  lemma {:induction false} BigEndianOrder(a: nat, b: nat, width: nat)
    requires a < Pow256(width) && b < Pow256(width)
    ensures Less(BigEndian(a, width), BigEndian(b, width)) <==> a < b
  {
    if width != 0 {
      BigEndianOrder(a / 256, b / 256, width - 1);
      LessAppend(BigEndian(a / 256, width - 1), BigEndian(b / 256, width - 1), a % 256, b % 256);
      if BigEndian(a / 256, width - 1) == BigEndian(b / 256, width - 1) {
        BigEndianRoundTrip(a / 256, width - 1);
        BigEndianRoundTrip(b / 256, width - 1);
      }
    }
  }

  /** The byte order of two strings of one width is the order of the numbers they encode. */
  lemma {:induction false} FromBigEndianOrder(a: Data, b: Data)
    requires |a| == |b|
    ensures Less(a, b) <==> FromBigEndian(a) < FromBigEndian(b)
    ensures FromBigEndian(a) == FromBigEndian(b) ==> a == b
  {
    if a != [] {
      var n := |a| - 1;
      FromBigEndianOrder(a[..n], b[..n]);
      LessAppend(a[..n], b[..n], a[n], b[n]);
      assert a == a[..n] + [a[n]] && b == b[..n] + [b[n]];
    }
  }

  // ----- arithmetic modulo 2^64 -----

  function Wrap(x: int): u64 { x % TWO_64 }

  lemma WrapAdd(a: int, b: int)
    ensures Wrap(Wrap(a) + b) == Wrap(a + b)
    ensures Wrap(a + Wrap(b)) == Wrap(a + b)
  {
    var q, r := a / TWO_64, b / TWO_64;
    WrapMultiple(Wrap(a) + b, q);
    WrapMultiple(a + Wrap(b), r);
  }

  lemma WrapSub(a: int, b: int)
    ensures Wrap(a - Wrap(b)) == Wrap(a - b)
  {
    WrapMultiple(a - b, b / TWO_64);
  }

  lemma {:induction false} WrapMultiple(a: int, q: int)
    ensures Wrap(a + q * TWO_64) == Wrap(a)
    decreases if q < 0 then -q else q
  {
    if q > 0 {
      WrapMultiple(a, q - 1);
      assert Wrap(a + (q - 1) * TWO_64 + TWO_64) == Wrap(a + (q - 1) * TWO_64);
    } else if q < 0 {
      WrapMultiple(a, q + 1);
      assert Wrap(a + (q + 1) * TWO_64 - TWO_64) == Wrap(a + (q + 1) * TWO_64);
    }
  }
}
