/** The ordered key-value store and its write batches (src/LevelDb.cpp). */
module Store {
  import opened Bytes

  type Key = Data
  type Contents = map<Key, Data>

  // ----- the order an iterator visits keys in -----

  predicate Ascending(s: seq<Key>)
  {
    forall i, j :: 0 <= i < j < |s| ==> Less(s[i], s[j])
  }

  predicate IsLeast(k: Key, s: set<Key>)
  {
    k in s && forall x :: x in s && x != k ==> Less(k, x)
  }

  lemma {:induction false} LeastExists(s: set<Key>)
    requires s != {}
    ensures exists k :: IsLeast(k, s)
  {
    var k :| k in s;
    var rest := s - {k};
    if rest == {} {
      assert s == {k};
      assert IsLeast(k, s);
    } else {
      LeastExists(rest);
      var m :| IsLeast(m, rest);
      LessTotal(k, m);
      if Less(k, m) {
        forall x | x in s && x != k ensures Less(k, x) {
          if x != m { LessTransitive(k, m, x); }
        }
        assert IsLeast(k, s);
      } else {
        assert IsLeast(m, s);
      }
    }
  }

  lemma LeastUnique(s: set<Key>)
    ensures forall a, b :: IsLeast(a, s) && IsLeast(b, s) ==> a == b
  {
    forall a, b | IsLeast(a, s) && IsLeast(b, s) ensures a == b {
      if a != b { LessAsymmetric(a, b); }
    }
  }

  /** The keys of a set in iterator order. */
  function SortedKeys(s: set<Key>): (r: seq<Key>)
    ensures Ascending(r)
    ensures forall k :: k in r <==> k in s
    ensures |r| == |s|
  {
    if s == {} then []
    else
      LeastExists(s);
      LeastUnique(s);
      var k :| IsLeast(k, s);
      [k] + SortedKeys(s - {k})
  }

  /** A set has one ascending enumeration. */
  lemma {:induction false} SortedUnique(a: seq<Key>, b: seq<Key>)
    requires Ascending(a) && Ascending(b)
    requires forall k :: k in a <==> k in b
    ensures a == b
  {
    if a == [] {
      SomeMember(b);
    } else {
      assert a[0] in b && b[0] in a;
      HeadIsLeast(a);
      HeadIsLeast(b);
      if a[0] != b[0] {
        LessAsymmetric(a[0], b[0]);
      }
      TailMembers(a);
      TailMembers(b);
      SortedUnique(a[1..], b[1..]);
    }
  }

  lemma SomeMember(b: seq<Key>)
    ensures b != [] ==> exists k :: k in b
  {
    if b != [] { assert b[0] in b; }
  }

  lemma HeadIsLeast(a: seq<Key>)
    requires Ascending(a) && a != []
    ensures forall k :: k in a && k != a[0] ==> Less(a[0], k)
    ensures a[0] !in a[1..] && Ascending(a[1..])
  {
    LessIrreflexive(a[0]);
  }

  lemma TailMembers(a: seq<Key>)
    requires Ascending(a) && a != []
    ensures forall k :: k in a[1..] <==> k in a && k != a[0]
  {
    HeadIsLeast(a);
    assert a == [a[0]] + a[1..];
  }

  // ----- the iterator loops -----

  /** The first position whose key is not below `key`. */
  function Seek(it: seq<Key>, key: Key): (r: nat)
    ensures r <= |it|
    ensures forall j :: 0 <= j < r ==> Less(it[j], key)
    ensures r < |it| ==> !Less(it[r], key)
  {
    if it == [] || !Less(it[0], key) then 0 else
      var r := Seek(it[1..], key);
      assert forall j :: 1 <= j < r + 1 ==> it[j] == it[1..][j - 1];
      r + 1
  }

  lemma SeekRest(it: seq<Key>, key: Key, j: nat)
    requires Ascending(it) && Seek(it, key) <= j < |it|
    ensures !Less(it[j], key)
  {
    var r := Seek(it, key);
    if j > r && Less(it[j], key) { LessTransitive(it[r], it[j], key); }
  }

  /** The stored keys that begin with `prefix`, without the excluded ones. */
  function Candidates(data: Contents, prefix: Key, excluded: set<Key>): set<Key>
  {
    set k | k in data && prefix <= k && k !in excluded
  }

  function FirstOf(data: Contents, prefix: Key, excluded: set<Key>): (r: Option<Key>)
    ensures r.None? <==> Candidates(data, prefix, excluded) == {}
    ensures r.Some? ==> IsLeast(r.value, Candidates(data, prefix, excluded))
  {
    var c := Candidates(data, prefix, excluded);
    if c == {} then None else
      var ks := SortedKeys(c);
      HeadIsLeast(ks);
      Some(ks[0])
  }

  /** The keys of the half-open range, in order. */
  function RangeKeys(data: Contents, lo: Key, hi: Key): (r: seq<Key>)
    ensures Ascending(r)
    ensures forall k :: k in r <==> k in data && !Less(k, lo) && Less(k, hi)
  {
    SortedKeys(set k | k in data && !Less(k, lo) && Less(k, hi))
  }

  /** `count` elements from position `from`; a zero count means all the rest. */
  function Page<T>(s: seq<T>, from: nat, count: nat): seq<T>
  {
    if from >= |s| then []
    else if count == 0 || from + count >= |s| then s[from..]
    else s[from..from + count]
  }

  /** What a scan has collected after visiting `n` elements of the range. */
  function Visited<T>(range: seq<T>, from: nat, n: nat): seq<T>
    requires n <= |range|
  {
    if n <= from then [] else range[from..n]
  }

  lemma VisitedNone<T>(range: seq<T>, from: nat)
    ensures Visited(range, from, 0) == []
  {
  }

  lemma VisitedNext<T>(range: seq<T>, from: nat, n: nat)
    requires n < |range|
    ensures Visited(range, from, n + 1) == if n >= from then Visited(range, from, n) + [range[n]]
            else Visited(range, from, n)
  {
  }

  lemma VisitedPage<T>(range: seq<T>, from: nat, count: nat, n: nat)
    requires n <= |range|
    requires (n == |range| && (count != 0 ==> n <= from + count)) || (count != 0 && n == from + count)
    ensures Visited(range, from, n) == Page(range, from, count)
  {
  }

  function EndOfRange(it: seq<Key>, i: nat, hi: Key): (r: nat)
    requires i <= |it|
    ensures i <= r <= |it|
    ensures forall j :: i <= j < r ==> Less(it[j], hi)
    ensures r < |it| ==> !Less(it[r], hi)
    decreases |it| - i
  {
    if i == |it| || !Less(it[i], hi) then i else EndOfRange(it, i + 1, hi)
  }

  /** The positions of a range: from its seek point to the first key not below `hi`. */
  lemma InRange(it: seq<Key>, lo: Key, hi: Key, end: nat, j: nat)
    requires Ascending(it) && j < |it|
    requires Seek(it, lo) <= end <= |it|
    requires forall j :: Seek(it, lo) <= j < end ==> Less(it[j], hi)
    requires end < |it| ==> !Less(it[end], hi)
    ensures !Less(it[j], lo) && Less(it[j], hi) <==> Seek(it, lo) <= j < end
  {
    hide Less; hide Seek;
    if Seek(it, lo) <= j { SeekRest(it, lo, j); }
    if j > end && Less(it[j], hi) { LessTransitive(it[end], it[j], hi); }
  }

  lemma SliceAscending(it: seq<Key>, a: nat, b: nat)
    requires Ascending(it) && a <= b <= |it|
    ensures Ascending(it[a..b])
    ensures forall k :: k in it[a..b] <==> exists j :: a <= j < b && it[j] == k
  {
    hide Less;
  }

  /** What an iterator visits between `lo` and `hi` is the range. */
  lemma RangeIsSlice(data: Contents, it: seq<Key>, lo: Key, hi: Key, end: nat)
    requires it == SortedKeys(data.Keys)
    requires Seek(it, lo) <= end <= |it|
    requires forall j :: Seek(it, lo) <= j < end ==> Less(it[j], hi)
    requires end < |it| ==> !Less(it[end], hi)
    ensures RangeKeys(data, lo, hi) == it[Seek(it, lo)..end]
  {
    hide Less; hide Seek; hide SortedKeys; hide RangeKeys; hide Ascending;
    var start := Seek(it, lo);
    SliceAscending(it, start, end);
    forall k ensures k in it[start..end] <==> k in data && !Less(k, lo) && Less(k, hi) {
      if k in data {
        var j :| 0 <= j < |it| && it[j] == k;
        InRange(it, lo, hi, end, j);
      }
      if k in it[start..end] {
        var j :| start <= j < end && it[j] == k;
        InRange(it, lo, hi, end, j);
      }
    }
    SortedUnique(RangeKeys(data, lo, hi), it[start..end]);
  }

  // ----- write batches -----

  datatype Op = Put(key: Key, value: Data) | Delete(key: Key)

  function ApplyOp(data: Contents, op: Op): Contents
  {
    match op
    case Put(k, v) => data[k := v]
    case Delete(k) => data - {k}
  }

  /** The contents after the whole batch, in order. */
  function ApplyOps(data: Contents, ops: seq<Op>): Contents
  {
    if ops == [] then data else ApplyOp(ApplyOps(data, ops[..|ops| - 1]), ops[|ops| - 1])
  }

  lemma ApplyOpsAppend(data: Contents, ops: seq<Op>, op: Op)
    ensures ApplyOps(data, ops + [op]) == ApplyOp(ApplyOps(data, ops), op)
  {
    assert (ops + [op])[..|ops|] == ops;
  }

  class LevelDb {
    var data: Contents

    constructor ()
      ensures data == map[]
    {
      data := map[];
    }

    /** Seeks to the prefix and walks on over excluded keys until a key leaves the prefix. */
    method FindFirstOf(key: Key, excluded: set<Key>) returns (k: Key, v: Data)
      requires key != []
      ensures FirstOf(data, key, excluded).None? ==> k == [] && v == []
      ensures FirstOf(data, key, excluded).Some? ==> k == FirstOf(data, key, excluded).value && v == data[k]
    {
      hide Less; hide Seek; hide SortedKeys; hide FirstOf; hide Ascending; hide Candidates; hide IsLeast;
      var it := SortedKeys(data.Keys);
      var start := Seek(it, key);
      var i := start;
      while i < |it|
        invariant start <= i <= |it|
        invariant forall j :: start <= j < i ==> key <= it[j] && it[j] in excluded
      {
        if !(key <= it[i]) { break; }
        if it[i] !in excluded {
          FoundFirst(data, it, key, excluded, i);
          return it[i], data[it[i]];
        }
        i := i + 1;
      }
      NoneFound(data, it, key, excluded, i);
      return [], [];
    }

    /** Values of the range from position `from`, at most `count` of them unless it is zero. */
    method FindKeyInternal(lo: Key, hi: Key, from: nat, count: nat) returns (result: seq<Key>)
      ensures result == Page(RangeKeys(data, lo, hi), from, count)
    {
      hide Less; hide Seek; hide SortedKeys; hide RangeKeys; hide Ascending; hide EndOfRange; hide Visited; hide Page;
      var it := SortedKeys(data.Keys);
      var start := Seek(it, lo);
      RangeIsSlice(data, it, lo, hi, EndOfRange(it, start, hi));
      result := Take(it, start, hi, from, count);
    }

    /** Walks from `start` while the keys are below `hi`. */
    method Take(it: seq<Key>, start: nat, hi: Key, from: nat, count: nat) returns (result: seq<Key>)
      requires start <= |it|
      ensures result == Page(it[start..EndOfRange(it, start, hi)], from, count)
    {
      hide Less; hide EndOfRange; hide Visited; hide Page;
      result := [];
      var i := start;
      ghost var end := EndOfRange(it, start, hi);
      ghost var range := it[start..end];
      VisitedNone(range, from);
      while i < |it| && Less(it[i], hi)
        invariant start <= i <= end
        invariant count != 0 ==> i - start <= from + count
        invariant result == Visited(range, from, i - start)
      {
        var index := i - start;
        if count != 0 && index >= from + count { break; }
        assert it[i] == range[index];
        VisitedNext(range, from, index);
        if index >= from { result := result + [it[i]]; }
        i := i + 1;
      }
      VisitedPage(range, from, count, i - start);
    }

    method Write(ops: seq<Op>)
      modifies this
      ensures data == ApplyOps(old(data), ops)
    {
      for i := 0 to |ops|
        invariant data == ApplyOps(old(data), ops[..i])
      {
        assert ops[..i + 1] == ops[..i] + [ops[i]];
        ApplyOpsAppend(old(data), ops[..i], ops[i]);
        data := ApplyOp(data, ops[i]);
      }
      assert ops[..|ops|] == ops;
    }
  }

  lemma FoundFirst(data: Contents, it: seq<Key>, key: Key, excluded: set<Key>, i: nat)
    requires it == SortedKeys(data.Keys)
    requires Seek(it, key) <= i < |it| && key <= it[i] && it[i] !in excluded
    requires forall j :: Seek(it, key) <= j < i ==> it[j] in excluded
    ensures FirstOf(data, key, excluded) == Some(it[i])
  {
    hide Less; hide Seek; hide SortedKeys; hide FirstOf;
    var c := Candidates(data, key, excluded);
    assert it[i] in c;
    forall x | x in c && x != it[i] ensures Less(it[i], x) {
      var j :| 0 <= j < |it| && it[j] == x;
      PrefixNotAbove(key, x);
      assert j > i;
    }
    assert IsLeast(it[i], c);
    LeastUnique(c);
  }

  lemma NoneFound(data: Contents, it: seq<Key>, key: Key, excluded: set<Key>, i: nat)
    requires it == SortedKeys(data.Keys)
    requires Seek(it, key) <= i <= |it| && (i < |it| ==> !(key <= it[i]))
    requires forall j :: Seek(it, key) <= j < i ==> it[j] in excluded
    ensures FirstOf(data, key, excluded) == None
  {
    hide Less; hide Seek; hide SortedKeys; hide FirstOf;
    var c := Candidates(data, key, excluded);
    forall x | x in c ensures false {
      var j :| 0 <= j < |it| && it[j] == x;
      PrefixNotAbove(key, x);
      if j > i {
        SeekRest(it, key, i);
        PrefixContiguous(key, it[i], x);
        LessAsymmetric(x, it[i]);
      }
    }
  }
}
