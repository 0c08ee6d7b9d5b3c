/** The copying primitives of 3rdParty/ubuntu14/lz4/lz4.c. */
module Lz4Memory {
  import opened Bytes

  /** Copies 8 bytes that do not overlap. */
  method Copy8(a: array<byte>, to: nat, from: nat)
    requires from + 8 <= to && to + 8 <= a.Length
    modifies a
    ensures forall i :: 0 <= i < a.Length && !(to <= i < to + 8) ==> a[i] == old(a[i])
    ensures forall i :: to <= i < to + 8 ==> a[i] == a[i - to + from]
  {
    forall k | 0 <= k < 8 { a[to + k] := a[from + k]; }
  }

  /** Copies in steps of 8 until `end` is reached, possibly up to 7 bytes further. */
  method WildCopy(a: array<byte>, to: nat, from: nat, end: nat)
    requires from + 8 <= to && to + 8 <= a.Length && end + 7 <= a.Length
    modifies a
    ensures a[..to] == old(a[..to])
    ensures forall i :: to <= i < to + 8 || to <= i < end ==> a[i] == a[i - to + from]
  {
    var d, s := to, from;
    Copy8(a, d, s);
    d, s := d + 8, s + 8;
    while d < end
      invariant to + 8 <= d <= a.Length && d - s == to - from && (d == to + 8 || d <= end + 7)
      invariant a[..to] == old(a[..to])
      invariant forall i :: to <= i < d ==> a[i] == a[i - to + from]
    {
      Copy8(a, d, s);
      d, s := d + 8, s + 8;
    }
  }

  /** Copies 8-byte steps from the input; `end` is reached, possibly exceeded by up to 7 bytes. */
  method WildCopyIn(a: array<byte>, to: nat, src: Data, from: nat, end: nat)
    requires to + 8 <= a.Length && end + 7 <= a.Length && to <= end
    requires from + 8 <= |src| && from + (end - to) + 7 <= |src|
    modifies a
    ensures a[..to] == old(a[..to])
    ensures a[to..end] == src[from..from + (end - to)]
  {
    var d, s := to, from;
    forall k | 0 <= k < 8 { a[d + k] := src[s + k]; }
    d, s := d + 8, s + 8;
    while d < end
      invariant to + 8 <= d <= a.Length && s - from == d - to && (d == to + 8 || d <= end + 7)
      invariant a[..to] == old(a[..to])
      invariant forall i :: to <= i < d ==> a[i] == src[i - to + from]
    {
      forall k | 0 <= k < 8 { a[d + k] := src[s + k]; }
      d, s := d + 8, s + 8;
    }
  }
}
