/** How a request is cut into segments, handed to servers, and put together again (src/P2P/P2P_Impl.cpp,
    P2P_Ips.cpp). */
module P2PSegments {
  import opened Bytes
  import opened P2PQueue
  import opened P2PProtocol
  import opened P2PInvariant
  import opened P2PTheorems

  const SIZE_LIMIT: nat := 0x1_0000_0000_0000_0000

  function Min(a: nat, b: nat): nat { if a <= b then a else b }
  function Max(a: nat, b: nat): nat { if a >= b then a else b }

  // ----- cutting -----

  function StepSize(count: nat, size: nat, minSize: nat): nat
    requires count > 0
  {
    Min(size, Max(size / count, minSize))
  }

  /** The segments cover [0, size) from left to right, each in the slot of its position. */
  ghost predicate Tiles(segments: seq<Segment>, size: nat)
  {
    |segments| > 0 && segments[0].fromByte == 0 && segments[|segments| - 1].toByte == size &&
    (forall i :: 0 <= i < |segments| ==> segments[i].fromByte <= segments[i].toByte && segments[i].posInArray == i) &&
    (forall i, j :: 0 <= i < |segments| && j == i + 1 && j < |segments| ==> segments[i].toByte == segments[j].fromByte)
  }

  /** All but the last are equally long: an equal share, but at least the minimum. */
  ghost predicate EvenCut(segments: seq<Segment>, size: nat, minSize: nat)
  {
    forall i :: 0 <= i < |segments| - 1 ==>
      segments[i].toByte - segments[i].fromByte ==
      if size / |segments| >= minSize then size / |segments| else minSize
  }

  predicate NoneEmpty(segments: seq<Segment>)
  {
    forall i :: 0 <= i < |segments| ==> segments[i].fromByte < segments[i].toByte
  }

  lemma MulLe(a: nat, b: nat, c: nat)
    requires a <= b
    ensures a * c <= b * c && c * a <= c * b
  {
    assert b * c == a * c + (b - a) * c;
  }

  function Boundary(i: nat, step: nat, size: nat): nat { Min(i * step, size) }

  lemma NextBoundary(i: nat, step: nat, size: nat)
    ensures Boundary(0, step, size) == 0
    ensures Boundary(i + 1, step, size) == Min(Boundary(i, step, size) + step, size)
    ensures Boundary(i, step, size) <= Boundary(i + 1, step, size) <= size
    ensures i * step < size && step > 0 ==> Boundary(i, step, size) < Boundary(i + 1, step, size)
  {
    assert (i + 1) * step == i * step + step;
  }

  ghost predicate CutAt(segments: seq<Segment>, count: nat, step: nat, size: nat)
  {
    |segments| == count && count > 0 &&
    (forall k :: 0 <= k < count - 1 ==>
      segments[k] == Segment(Boundary(k, step, size), Boundary(k + 1, step, size), k)) &&
    segments[count - 1] == Segment(Boundary(count - 1, step, size), size, count - 1)
  }

  lemma CutTiles(segments: seq<Segment>, count: nat, step: nat, size: nat)
    requires CutAt(segments, count, step, size)
    ensures Tiles(segments, size)
    ensures forall i :: 0 <= i < count - 1 ==> segments[i].toByte - segments[i].fromByte <= step
  {
    hide Boundary;
    NextBoundary(0, step, size);
    assert segments[0].fromByte == Boundary(0, step, size);
    NextBoundary(count - 1, step, size);
    assert segments[count - 1] == Segment(Boundary(count - 1, step, size), size, count - 1);
    forall k | 0 <= k < count
      ensures segments[k].fromByte <= segments[k].toByte && segments[k].posInArray == k
      ensures k < count - 1 ==> segments[k].toByte - segments[k].fromByte <= step
    {
      if k < count - 1 {
        assert segments[k] == Segment(Boundary(k, step, size), Boundary(k + 1, step, size), k);
        NextBoundary(k, step, size);
      } else {
        assert k == count - 1;
      }
    }
    forall i, j | 0 <= i < |segments| && j == i + 1 && j < |segments|
      ensures segments[i].toByte == segments[j].fromByte {
      assert segments[i] == Segment(Boundary(i, step, size), Boundary(i + 1, step, size), i);
      if j < count - 1 {
        assert segments[j] == Segment(Boundary(j, step, size), Boundary(j + 1, step, size), j);
      } else {
        assert j == count - 1;
        assert segments[j] == Segment(Boundary(count - 1, step, size), size, count - 1);
      }
    }
  }

  lemma CutNoneEmpty(segments: seq<Segment>, count: nat, step: nat, size: nat)
    requires CutAt(segments, count, step, size) && step > 0
    ensures NoneEmpty(segments) <==> (count - 1) * step < size
  {
    if (count - 1) * step < size {
      forall k | 0 <= k < count ensures segments[k].fromByte < segments[k].toByte {
        MulLe(k, count - 1, step);
        NextBoundary(k, step, size);
      }
    } else {
      assert segments[count - 1].fromByte == segments[count - 1].toByte;
    }
  }

  lemma StepIsShare(count: nat, size: nat, minSize: nat)
    requires count > 1 && (count - 1) * StepSize(count, size, minSize) < size
    ensures StepSize(count, size, minSize) == if size / count >= minSize then size / count else minSize
  {
    MulLe(1, count - 1, StepSize(count, size, minSize));
  }

  lemma CutEven(segments: seq<Segment>, count: nat, size: nat, minSize: nat)
    requires count > 0 && CutAt(segments, count, StepSize(count, size, minSize), size)
    requires (count - 1) * StepSize(count, size, minSize) < size
    ensures EvenCut(segments, size, minSize)
  {
    hide StepSize;
    var step := StepSize(count, size, minSize);
    if count > 1 { StepIsShare(count, size, minSize); }
    forall i | 0 <= i < count - 1 ensures segments[i].toByte - segments[i].fromByte == step {
      MulLe(i + 1, count - 1, step);
      assert (i + 1) * step == i * step + step;
      assert segments[i] == Segment(Boundary(i, step, size), Boundary(i + 1, step, size), i);
    }
  }

  /** No sum of a boundary and a step, except before the last segment where none is taken, reaches 2^64. */
  predicate NoWrap(count: nat, step: nat, size: nat)
    requires count > 0
  {
    count == 1 || Boundary(count - 2, step, size) + step < SIZE_LIMIT
  }

  lemma BoundariesRise(i: nat, j: nat, step: nat, size: nat)
    requires i <= j
    ensures Boundary(i, step, size) <= Boundary(j, step, size)
  {
    MulLe(i, j, step);
  }

  lemma TornUntiled(segments: seq<Segment>, size: nat, bad: nat)
    requires bad < |segments| && segments[bad].toByte < segments[bad].fromByte
    ensures !Tiles(segments, size)
  {
  }

  /** Fails exactly for no segments and for a step of zero. The segments tile [0, size) exactly when no 64-bit sum wraps
      around, and then none is empty exactly when the last but one boundary is below the size. */
  method MakeSegments(count: nat, size: nat, minSize: nat) returns (ok: bool, segments: seq<Segment>)
    requires size < SIZE_LIMIT && minSize < SIZE_LIMIT
    ensures ok <==> count > 0 && size > 0 && (minSize > 0 || size >= count)
    ensures ok ==>
              var step := StepSize(count, size, minSize);
              |segments| == count && (Tiles(segments, size) <==> NoWrap(count, step, size)) &&
              (NoWrap(count, step, size) ==>
                 (NoneEmpty(segments) <==> (count - 1) * step < size) &&
                 (NoneEmpty(segments) ==> EvenCut(segments, size, minSize)) &&
                 forall i :: 0 <= i < count - 1 ==> segments[i].toByte - segments[i].fromByte <= step)
  {
    hide StepSize; hide Boundary; hide Tiles; hide NoneEmpty; hide NextByte; hide CutSoFar; hide EvenCut;
    StepBelow(count, size, minSize);
    segments := [];
    if count == 0 { return false, []; }
    var step := StepSize(count, size, minSize);
    StepZero(count, size, minSize);
    if step == 0 { return false, []; }
    var prevByte: nat, i: nat := 0, 0;
    ghost var wrapped, bad := false, 0;
    NextBoundary(0, step, size);
    CutNothing(step, size);
    while i < count - 1
      invariant 0 <= i <= count - 1 && |segments| == i && prevByte <= size
      invariant wrapped <==> i > 0 && Boundary(i - 1, step, size) + step >= SIZE_LIMIT
      invariant wrapped ==> 0 <= bad < i && segments[bad].toByte < segments[bad].fromByte
      invariant !wrapped ==> prevByte == Boundary(i, step, size) && CutSoFar(segments, step, size)
    {
      NextBoundary(i, step, size);
      if i > 0 { BoundariesRise(i - 1, i, step, size); }
      NextByteIs(prevByte, step, size);
      var nextByte := NextByte(prevByte, step, size);
      if !wrapped && prevByte + step < SIZE_LIMIT { CutMore(segments, step, size); }
      segments := segments + [Segment(prevByte, nextByte, i)];
      if !wrapped && prevByte + step >= SIZE_LIMIT { wrapped, bad := true, i; }
      prevByte := nextByte;
      i := i + 1;
    }
    ghost var cut := segments;
    segments := segments + [Segment(prevByte, size, count - 1)];
    assert segments[..count - 1] == cut;
    if wrapped {
      TornUntiled(segments, size, bad);
    } else {
      CutAll(segments, count, step, size);
      CutTiles(segments, count, step, size);
      CutNoneEmpty(segments, count, step, size);
      if (count - 1) * step < size { CutEven(segments, count, size, minSize); }
    }
    ok := true;
  }

  /** The 64-bit sum, limited by the size. */
  function NextByte(prevByte: nat, step: nat, size: nat): nat { Min((prevByte + step) % SIZE_LIMIT, size) }

  lemma NextByteIs(prevByte: nat, step: nat, size: nat)
    requires prevByte <= size < SIZE_LIMIT && step < SIZE_LIMIT
    ensures NextByte(prevByte, step, size) <= size
    ensures if prevByte + step < SIZE_LIMIT then NextByte(prevByte, step, size) == Min(prevByte + step, size)
            else NextByte(prevByte, step, size) < prevByte
  {
  }

  lemma StepBelow(count: nat, size: nat, minSize: nat)
    ensures count > 0 ==> StepSize(count, size, minSize) <= size
  {
  }

  lemma CutNothing(step: nat, size: nat)
    ensures CutSoFar([], step, size)
  {
  }

  lemma CutMore(segments: seq<Segment>, step: nat, size: nat)
    requires CutSoFar(segments, step, size)
    ensures var k := |segments|;
            CutSoFar(segments + [Segment(Boundary(k, step, size), Boundary(k + 1, step, size), k)], step, size)
  {
    hide Boundary;
  }

  lemma CutAll(segments: seq<Segment>, count: nat, step: nat, size: nat)
    requires |segments| == count > 0 && CutSoFar(segments[..count - 1], step, size)
    requires segments[count - 1] == Segment(Boundary(count - 1, step, size), size, count - 1)
    ensures CutAt(segments, count, step, size)
  {
    hide Boundary;
    forall k | 0 <= k < count - 1
      ensures segments[k] == Segment(Boundary(k, step, size), Boundary(k + 1, step, size), k)
    {
      assert segments[..count - 1][k] == segments[k];
    }
  }

  ghost predicate CutSoFar(segments: seq<Segment>, step: nat, size: nat)
  {
    forall k :: 0 <= k < |segments| ==>
      segments[k] == Segment(Boundary(k, step, size), Boundary(k + 1, step, size), k)
  }

  lemma StepZero(count: nat, size: nat, minSize: nat)
    requires count > 0
    ensures StepSize(count, size, minSize) > 0 <==> size > 0 && (minSize > 0 || size >= count)
  {
    if size >= count { DivAtLeast(size, count); }
  }

  // ----- the number of segments of a request -----

  function CountSegments(size: nat, minSize: nat, maxServers: nat): nat
    requires minSize > 0
  {
    if minSize == 1 then size else Min((size + minSize - 1) % SIZE_LIMIT / minSize, maxServers)
  }

  /** One segment for each unit; otherwise as many as have the minimum size, but at most one for each connection. */
  predicate SegmentCount(count: nat, size: nat, minSize: nat, maxServers: nat)
  {
    if minSize == 1 then count == size
    else
      0 < count <= maxServers && (count - 1) * minSize < size &&
      (count == maxServers || size <= count * minSize)
  }

  lemma CountIs(size: nat, minSize: nat, maxServers: nat)
    requires 0 < size < SIZE_LIMIT && minSize > 0 && maxServers > 0
    requires minSize == 1 || size + minSize <= SIZE_LIMIT
    ensures SegmentCount(CountSegments(size, minSize, maxServers), size, minSize, maxServers)
  {
    if minSize > 1 {
      var top := (size + minSize - 1) / minSize;
      CountBound(size, minSize);
      MulLe(CountSegments(size, minSize, maxServers) - 1, top - 1, minSize);
      assert size + minSize - 1 == minSize * top + (size + minSize - 1) % minSize;
    }
  }

  /** The number of segments a request asks for is zero exactly when there is nothing to ask for or the 64-bit sum wraps
      around; otherwise it never leaves a segment empty and never makes a boundary wrap around. */
  lemma RequestNoneEmpty(size: nat, minSize: nat, maxServers: nat)
    requires size < SIZE_LIMIT && 0 < minSize < SIZE_LIMIT && maxServers > 0
    ensures var count := CountSegments(size, minSize, maxServers);
            (count > 0 <==> size > 0 && (minSize == 1 || size + minSize <= SIZE_LIMIT)) &&
            (count > 0 ==>
               var step := StepSize(count, size, minSize);
               (count - 1) * step < size && NoWrap(count, step, size))
  {
    hide NoWrap;
    var count := CountSegments(size, minSize, maxServers);
    if minSize == 1 {
      if size > 0 { assert size / size == 1; }
    } else if size > 0 && size + minSize <= SIZE_LIMIT {
      CountBound(size, minSize);
      StepBound(count, size, minSize);
    } else {
      NoSegments(size, minSize);
    }
    if count > 0 { BelowSize(count, StepSize(count, size, minSize), size); }
  }

  lemma NoSegments(size: nat, minSize: nat)
    requires size < SIZE_LIMIT && 0 < minSize < SIZE_LIMIT && (size == 0 || size + minSize > SIZE_LIMIT)
    ensures (size + minSize - 1) % SIZE_LIMIT / minSize == 0
  {
    assert (size + minSize - 1) % SIZE_LIMIT < minSize;
  }

  lemma BelowSize(count: nat, step: nat, size: nat)
    requires count > 0 && (count - 1) * step < size < SIZE_LIMIT
    ensures NoWrap(count, step, size)
  {
    if count > 1 { NextBoundary(count - 2, step, size); }
  }

  lemma CountBound(size: nat, minSize: nat)
    requires size > 0 && minSize > 0
    ensures var top := (size + minSize - 1) / minSize; top > 0 && (top - 1) * minSize < size
  {
    DivAtLeast(size + minSize - 1, minSize);
    var top := (size + minSize - 1) / minSize;
    assert (top - 1) * minSize == top * minSize - minSize;
  }

  lemma StepBound(count: nat, size: nat, minSize: nat)
    requires size > 0 && minSize > 0 && 0 < count <= (size + minSize - 1) / minSize
    ensures (count - 1) * StepSize(count, size, minSize) < size
  {
    var top, step := (size + minSize - 1) / minSize, StepSize(count, size, minSize);
    CountBound(size, minSize);
    if step > minSize {
      assert (count - 1) * step < size by { Quotient(count, step, size); }
    } else {
      MulLe(step, minSize, count - 1);
      MulLe(count - 1, top - 1, minSize);
    }
  }

  lemma Quotient(count: nat, step: nat, size: nat)
    requires count > 0 && 0 < step <= size / count
    ensures (count - 1) * step < size
  {
    MulLe(step, size / count, count);
    assert (count - 1) * step == count * step - step;
  }

  lemma DivAtLeast(a: nat, b: nat)
    requires 0 < b <= a
    ensures a / b >= 1
  {
    assert a == b * (a / b) + a % b;
  }

  /** With minimum size 1, the segments are the unit intervals, in order. */
  lemma {:induction false} UnitSegments(segments: seq<Segment>, size: nat, i: nat)
    requires Tiles(segments, size) && NoneEmpty(segments) && |segments| == size && i < size
    ensures segments[i] == Segment(i, i + 1, i)
  {
    UnitFrom(segments, size, i);
    UnitTo(segments, size, size - 1 - i);
  }

  lemma {:induction false} UnitFrom(segments: seq<Segment>, size: nat, i: nat)
    requires Tiles(segments, size) && NoneEmpty(segments) && |segments| == size && i < size
    ensures segments[i].fromByte >= i
  {
    if i > 0 {
      UnitFrom(segments, size, i - 1);
      assert segments[i - 1].toByte == segments[i].fromByte;
    }
  }

  lemma {:induction false} UnitTo(segments: seq<Segment>, size: nat, k: nat)
    requires Tiles(segments, size) && NoneEmpty(segments) && |segments| == size && k < size
    ensures segments[size - 1 - k].toByte <= size - k
  {
    if k > 0 {
      UnitTo(segments, size, k - 1);
      assert segments[size - 1 - k].toByte == segments[size - k].fromByte;
    }
  }

  // ----- servers and threads -----

  datatype Distribution = Distribution(from: nat, to: nat, server: Server)

  function Connections(count: nat, servers: nat, connections: nat): nat
    requires servers > 0
  {
    Min((count + servers - 1) / servers, connections)
  }

  function GroupStart(i: nat, connections: nat): nat { i * connections }

  /** How many threads each server gets: enough for every segment if there are so many. */
  predicate ThreadCount(used: nat, count: nat, servers: nat, connections: nat)
  {
    0 < used <= connections && (used - 1) * servers < count &&
    (used == connections || count <= used * servers)
  }

  lemma UsedIs(count: nat, servers: nat, connections: nat)
    requires count > 0 && servers > 0 && connections > 0
    ensures ThreadCount(Connections(count, servers, connections), count, servers, connections)
  {
    var top := (count + servers - 1) / servers;
    CountBound(count, servers);
    MulLe(Connections(count, servers, connections) - 1, top - 1, servers);
    assert count + servers - 1 == servers * top + (count + servers - 1) % servers;
  }

  lemma NextGroup(i: nat, connections: nat)
    ensures GroupStart(i + 1, connections) == GroupStart(i, connections) + connections
  {
    assert (i + 1) * connections == i * connections + connections;
  }

  /** The first occurrence of the `i`-th server. */
  function First(servers: seq<Server>, i: nat): (k: nat)
    requires i < |servers|
    ensures k <= i && servers[k] == servers[i] && servers[i] !in servers[..k]
  {
    FirstFrom(servers, i, 0)
  }

  function FirstFrom(servers: seq<Server>, i: nat, from: nat): (k: nat)
    requires from <= i < |servers| && servers[i] !in servers[..from]
    ensures from <= k <= i && servers[k] == servers[i] && servers[i] !in servers[..k]
    decreases i - from
  {
    if servers[from] == servers[i] then from
    else assert servers[..from + 1] == servers[..from] + [servers[from]]; FirstFrom(servers, i, from + 1)
  }

  method FindServer(servers: seq<Server>, i: nat) returns (index: nat)
    requires i < |servers|
    ensures index == First(servers, i)
  {
    index := 0;
    while servers[index] != servers[i]
      invariant 0 <= index <= i && servers[i] !in servers[..index]
      invariant FirstFrom(servers, i, index) == First(servers, i)
      decreases i - index
    {
      assert servers[..index + 1] == servers[..index] + [servers[index]];
      index := index + 1;
    }
  }

  ghost predicate ListOf(result: seq<Distribution>, servers: seq<Server>, connections: nat, used: nat)
  {
    |result| <= |servers| &&
    forall i :: 0 <= i < |result| ==>
      var from := GroupStart(First(servers, i), connections);
      result[i] == Distribution(from, from + used, servers[i])
  }

  /** Each server gets the first threads of the group of its first occurrence. */
  method GetServersList(servers: seq<Server>, count: nat, connections: nat) returns (result: seq<Distribution>)
    requires servers != []
    ensures |result| == |servers| && ListOf(result, servers, connections, Connections(count, |servers|, connections))
  {
    hide GroupStart; hide Connections; hide First; hide ListOf;
    var curr := Connections(count, |servers|, connections);
    result := [];
    ListNone(servers, connections, curr);
    for i := 0 to |servers|
      invariant |result| == i && ListOf(result, servers, connections, curr)
    {
      var index := FindServer(servers, i);
      ListNext(result, servers, connections, curr);
      result := result + [Distribution(GroupStart(index, connections), GroupStart(index, connections) + curr,
        servers[i])];
    }
  }

  lemma ListNone(servers: seq<Server>, connections: nat, used: nat)
    ensures ListOf([], servers, connections, used)
  {
  }

  lemma ListNext(result: seq<Distribution>, servers: seq<Server>, connections: nat, used: nat)
    requires ListOf(result, servers, connections, used) && |result| < |servers|
    ensures var from := GroupStart(First(servers, |result|), connections);
            ListOf(result + [Distribution(from, from + used, servers[|result|])], servers, connections, used)
  {
    hide GroupStart; hide First;
  }

  /** The threads of a distribution, in the order in which the task is handed to them. */
  function PlanOf(d: seq<Distribution>): seq<(nat, Server)>
  {
    if d == [] then [] else PlanOf(d[..|d| - 1]) + ThreadsOf(d[|d| - 1])
  }

  function ThreadsOf(d: Distribution): seq<(nat, Server)>
  {
    if d.from <= d.to then seq(d.to - d.from, i requires 0 <= i < d.to - d.from => (d.from + i, d.server)) else []
  }

  /** Ranges of `used` threads, one per server, `connections` apart: what GetServersList gives for distinct servers. */
  ghost predicate Spread(d: seq<Distribution>, servers: seq<Server>, connections: nat, used: nat)
  {
    0 < used <= connections && |d| == |servers| &&
    forall i :: 0 <= i < |d| ==> d[i] == Distribution(GroupStart(i, connections), GroupStart(i, connections) + used,
      servers[i])
  }

  lemma DistinctSpread(result: seq<Distribution>, servers: seq<Server>, count: nat, connections: nat)
    requires count > 0 && connections > 0 && servers != [] && |result| == |servers|
    requires forall i, j :: 0 <= i < j < |servers| ==> servers[i] != servers[j]
    requires ListOf(result, servers, connections, Connections(count, |servers|, connections))
    ensures Spread(result, servers, connections, Connections(count, |servers|, connections))
  {
    hide GroupStart; hide First;
    DivAtLeast(count + |servers| - 1, |servers|);
    forall i | 0 <= i < |servers| ensures First(servers, i) == i { }
  }

  /** The plan lists, server by server, the first `used` threads of the server's group. */
  ghost predicate ThreadsAt(plan: seq<(nat, Server)>, servers: seq<Server>, connections: nat, used: nat)
  {
    |plan| == GroupStart(|servers|, used) &&
    forall k, j :: 0 <= k < |servers| && 0 <= j < used ==> ThreadAt(plan, servers, connections, used, k, j)
  }

  predicate ThreadAt(plan: seq<(nat, Server)>, servers: seq<Server>, connections: nat, used: nat, k: nat, j: nat)
    requires k < |servers|
  {
    GroupStart(k, used) + j < |plan| &&
    plan[GroupStart(k, used) + j] == (GroupStart(k, connections) + j, servers[k])
  }

  lemma ListsNext(before: seq<(nat, Server)>, now: seq<(nat, Server)>, servers: seq<Server>, connections: nat,
                  used: nat)
    requires servers != [] && ThreadsAt(before, servers[..|servers| - 1], connections, used) && |now| == used
    requires forall j :: 0 <= j < used ==>
               now[j] == (GroupStart(|servers| - 1, connections) + j, servers[|servers| - 1])
    ensures ThreadsAt(before + now, servers, connections, used)
  {
    hide GroupStart;
    var n := |servers| - 1;
    NextGroup(n, used);
    forall k, j | 0 <= k < |servers| && 0 <= j < used ensures ThreadAt(before + now, servers, connections, used, k, j) {
      if k < n {
        assert ThreadAt(before, servers[..n], connections, used, k, j);
      } else {
        assert k == n;
      }
    }
  }

  lemma {:induction false} PlanLists(d: seq<Distribution>, servers: seq<Server>, connections: nat, used: nat)
    requires Spread(d, servers, connections, used)
    ensures ThreadsAt(PlanOf(d), servers, connections, used)
    decreases d
  {
    hide GroupStart; hide ThreadsAt;
    if d == [] {
      NoGroups(connections, used);
    } else {
      var n := |d| - 1;
      PlanLists(d[..n], servers[..n], connections, used);
      ListsNext(PlanOf(d[..n]), ThreadsOf(d[n]), servers, connections, used);
    }
  }

  lemma NoGroups(connections: nat, used: nat)
    ensures ThreadsAt([], [], connections, used)
  {
  }

  /** Threads of different servers do not overlap, all exist, and every server gets one. */
  lemma PlanIsOk(d: seq<Distribution>, servers: seq<Server>, connections: nat, used: nat)
    requires Spread(d, servers, connections, used)
    ensures var plan := PlanOf(d);
            (forall i, j :: 0 <= i < j < |plan| ==> plan[i].0 != plan[j].0) &&
            (forall i :: 0 <= i < |plan| ==> plan[i].0 < GroupStart(|servers|, connections)) &&
            PlanServers(plan) == set v | v in servers
  {
    hide GroupStart; hide PlanOf; hide PlanServers; hide Spread;
    PlanThreads(d, servers, connections, used);
    PlanServersAre(d, servers, connections, used);
  }

  lemma {:induction false} PlanThreads(d: seq<Distribution>, servers: seq<Server>, connections: nat, used: nat)
    requires Spread(d, servers, connections, used)
    ensures var plan := PlanOf(d);
            (forall i, j :: 0 <= i < j < |plan| ==> plan[i].0 != plan[j].0) &&
            (forall i :: 0 <= i < |plan| ==> plan[i].0 < GroupStart(|servers|, connections))
  {
    hide GroupStart;
    if d != [] {
      var n := |d| - 1;
      PlanThreads(d[..n], servers[..n], connections, used);
      NextGroup(n, connections);
      assert PlanOf(d) == PlanOf(d[..n]) + ThreadsOf(d[n]);
    }
  }

  lemma {:induction false} PlanServersAre(d: seq<Distribution>, servers: seq<Server>, connections: nat, used: nat)
    requires Spread(d, servers, connections, used)
    ensures PlanServers(PlanOf(d)) == set v | v in servers
  {
    hide GroupStart;
    if d != [] {
      hide PlanServers;
      var n := |d| - 1;
      PlanServersAre(d[..n], servers[..n], connections, used);
      PlanGrows(PlanOf(d[..n]), ThreadsOf(d[n]), servers[n]);
      ServerSet(servers, n);
    }
  }

  lemma ServerSet(servers: seq<Server>, n: nat)
    requires |servers| == n + 1
    ensures (set v | v in servers) == (set v | v in servers[..n]) + {servers[n]}
  {
    assert servers == servers[..n] + [servers[n]];
  }

  lemma PlanGrows(before: seq<(nat, Server)>, now: seq<(nat, Server)>, server: Server)
    requires now != [] && forall i :: 0 <= i < |now| ==> now[i].1 == server
    ensures PlanServers(before + now) == PlanServers(before) + {server}
  {
    var plan := before + now;
    forall v | v in PlanServers(before) ensures v in PlanServers(plan) {
      var i :| 0 <= i < |before| && before[i].1 == v;
      assert plan[i].1 == v;
    }
    assert plan[|before|] == now[0];
  }

  // ----- putting together -----

  function Flatten(answers: seq<Data>): Data
  {
    if answers == [] then [] else Flatten(answers[..|answers| - 1]) + answers[|answers| - 1]
  }

  method Join(answers: seq<Data>) returns (response: Data)
    ensures response == Flatten(answers)
  {
    response := [];
    for i := 0 to |answers|
      invariant response == Flatten(answers[..i])
    {
      assert answers[..i + 1][..i] == answers[..i];
      response := response + answers[i];
    }
    assert answers[..|answers|] == answers;
  }

  /** Answers of exact length add up to the requested size. */
  lemma {:induction false} FlattenLength(segments: seq<Segment>, answers: seq<Data>, size: nat, n: nat)
    requires Tiles(segments, size) && |answers| == |segments| && 0 < n <= |segments|
    requires forall i :: 0 <= i < n ==> |answers[i]| == segments[i].toByte - segments[i].fromByte
    ensures |Flatten(answers[..n])| == segments[n - 1].toByte
  {
    assert answers[..n][..n - 1] == answers[..n - 1];
    if n > 1 {
      FlattenLength(segments, answers, size, n - 1);
      assert segments[n - 2].toByte == segments[n - 1].fromByte;
    } else {
      assert answers[..0] == [];
    }
  }

  /** The bytes of a segment. */
  function Part(content: Data, segment: Segment): Data
  {
    if segment.fromByte <= segment.toByte <= |content| then content[segment.fromByte..segment.toByte] else []
  }

  lemma {:induction false} Boundaries(segments: seq<Segment>, size: nat, k: nat)
    requires Tiles(segments, size) && k < |segments|
    ensures segments[|segments| - 1 - k].toByte <= size
  {
    if k > 0 {
      Boundaries(segments, size, k - 1);
      assert segments[|segments| - 1 - k].toByte == segments[|segments| - k].fromByte;
    }
  }

  lemma {:induction false} FlattenContent(segments: seq<Segment>, answers: seq<Data>, content: Data, n: nat)
    requires Tiles(segments, |content|) && |answers| == |segments| && 0 < n <= |segments|
    requires forall i :: 0 <= i < n ==> answers[i] == Part(content, segments[i])
    ensures segments[n - 1].toByte <= |content| && Flatten(answers[..n]) == content[..segments[n - 1].toByte]
  {
    hide Flatten;
    FlattenNext(answers, n);
    Boundaries(segments, |content|, |segments| - n);
    var a, b := segments[n - 1].fromByte, segments[n - 1].toByte;
    assert answers[n - 1] == content[a..b];
    if n > 1 {
      FlattenContent(segments, answers, content, n - 1);
      assert segments[n - 2].toByte == a;
    } else {
      FlattenNone(answers, content);
    }
    SlicesJoin(content, a, b);
  }

  lemma FlattenNext(answers: seq<Data>, n: nat)
    requires 0 < n <= |answers|
    ensures Flatten(answers[..n]) == Flatten(answers[..n - 1]) + answers[n - 1]
  {
    assert answers[..n][..n - 1] == answers[..n - 1];
  }

  lemma FlattenNone(answers: seq<Data>, content: Data)
    ensures Flatten(answers[..0]) == content[..0]
  {
  }

  lemma SlicesJoin(content: Data, a: nat, b: nat)
    requires a <= b <= |content|
    ensures content[..a] + content[a..b] == content[..b]
  {
  }

  // ----- whole requests -----

  /** In exact-size mode a request that ends without an error has exactly the requested length, whatever the servers
      sent. */
  lemma ExactLength(s: State, size: nat)
    requires Reachable(s) && Ended(s) && !s.main.error && s.q.taskId in s.tasks
    requires Current(s).precise && Tiles(Current(s).segments, size)
    ensures |Flatten(Current(s).answers)| == size
  {
    hide Reachable;
    var task := Current(s);
    forall i | 0 <= i < |task.segments|
      ensures |task.answers| == |task.segments| &&
              |task.answers[i]| == task.segments[i].toByte - task.segments[i].fromByte
    {
      AnswersComplete(s, i);
    }
    FlattenLength(task.segments, task.answers, size, |task.segments|);
    assert task.answers[..|task.segments|] == task.answers;
  }

  /** Every parsed response for task `t` is the part of `content` that was asked for. */
  ghost predicate Truthful(s: State, a: Action, t: nat, content: Data)
  {
    a.EndParse? && a.tid in s.threads && s.threads[a.tid].pc.Parsing? && s.threads[a.tid].pc.snap.refs == t &&
      !a.error ==>
      a.response == Part(content, s.threads[a.tid].pc.segment)
  }

  ghost predicate AcceptedTrue(s: State, t: nat, content: Data)
  {
    forall id, d :: WasAccepted(s.accepted, id, d) && id in s.q.elements && s.q.elements[id].task == t ==>
      d == Part(content, s.q.elements[id].segment)
  }

  lemma TrueStep(s: State, a: Action, t: nat, content: Data)
    requires Inv(s) && Enabled(s, a) && AcceptedTrue(s, t, content) && Truthful(s, a, t, content)
    ensures AcceptedTrue(Step(s, a), t, content)
  {
    hide LeftOk; hide ErrorOk; hide RangesOk; hide SlotsOk; hide CoverOk; hide MainOk; hide PairsOk;
    hide DispatchOk; hide ElementsOk; hide OrderOk; hide TasksOk; hide Part; hide LastFree; hide Without; hide Record;
    hide Give;
    var s' := Step(s, a);
    if a.EndParse? { assert ThreadOk(s.q, s.tasks, s.accepted, s.threads[a.tid]); }
    hide ThreadsOk;
    forall id, d | WasAccepted(s'.accepted, id, d) && id in s'.q.elements && s'.q.elements[id].task == t
      ensures d == Part(content, s'.q.elements[id].segment)
    {
      if WasAccepted(s.accepted, id, d) {
        SameElement(s, a, id);
      }
    }
  }

  /** An element's task and segment never change. */
  lemma SameElement(s: State, a: Action, id: nat)
    requires Inv(s) && Enabled(s, a) && HasAccepted(s.accepted, id)
    ensures id in s.q.elements && id in Step(s, a).q.elements
    ensures Step(s, a).q.elements[id].task == s.q.elements[id].task &&
            Step(s, a).q.elements[id].segment == s.q.elements[id].segment
  {
    hide LeftOk; hide ErrorOk; hide RangesOk; hide SlotsOk; hide CoverOk; hide MainOk; hide PairsOk;
    hide DispatchOk; hide ElementsOk; hide OrderOk; hide TasksOk; hide LastFree; hide ThreadsOk; hide Without;
    var d :| WasAccepted(s.accepted, id, d);
    assert id in s.q.elements && 0 <= id < s.q.next;
  }

  lemma {:induction false} RunTrue(states: seq<State>, actions: seq<Action>, t: nat, content: Data, n: nat)
    requires IsRun(states, actions) && n < |states|
    requires forall i :: 0 <= i < n ==> Truthful(states[i], actions[i], t, content)
    ensures AcceptedTrue(states[n], t, content)
  {
    hide Inv; hide Enabled; hide Step; hide Truthful; hide AcceptedTrue;
    if n == 0 {
      InitTrue(states[0], t, content);
    } else {
      hide Init;
      RunTrue(states, actions, t, content, n - 1);
      RunInv(states, actions, n - 1);
      TrueStep(states[n - 1], actions[n - 1], t, content);
    }
  }

  lemma InitTrue(s: State, t: nat, content: Data)
    requires Init(s)
    ensures AcceptedTrue(s, t, content)
  {
  }

  /** With truthful servers, a request that ends without an error returns the requested bytes, in every interleaving. */
  lemma RequestReturnsContent(states: seq<State>, actions: seq<Action>, content: Data)
    requires IsRun(states, actions)
    requires var s := states[|actions|];
             Ended(s) && !s.main.error && s.q.taskId in s.tasks && Tiles(Current(s).segments, |content|) &&
             forall i :: 0 <= i < |actions| ==> Truthful(states[i], actions[i], s.q.taskId, content)
    ensures Flatten(Current(states[|actions|]).answers) == content
  {
    hide Init; hide Inv; hide Enabled; hide Step; hide Truthful; hide Part;
    var s := states[|actions|];
    assert Reachable(s);
    RunInv(states, actions, |actions|);
    RunTrue(states, actions, s.q.taskId, content, |actions|);
    var task := Current(s);
    forall i | 0 <= i < |task.segments| ensures |task.answers| == |task.segments| &&
      task.answers[i] == Part(content, task.segments[i]) {
      AnswerTrue(s, content, i);
    }
    FlattenContent(task.segments, task.answers, content, |task.segments|);
    assert task.answers[..|task.segments|] == task.answers;
  }

  lemma AnswerTrue(s: State, content: Data, i: nat)
    requires Reachable(s) && Inv(s) && Ended(s) && !s.main.error && s.q.taskId in s.tasks && i < |Current(s).segments|
    requires AcceptedTrue(s, s.q.taskId, content)
    ensures |Current(s).answers| == |Current(s).segments| &&
            Current(s).answers[i] == Part(content, Current(s).segments[i])
  {
    hide LeftOk; hide ErrorOk; hide RangesOk; hide SlotsOk; hide CoverOk; hide PairsOk;
    hide DispatchOk; hide ElementsOk; hide OrderOk; hide TasksOk; hide ThreadsOk; hide Part; hide Reachable;
    hide AcceptedOk;
    AnswersComplete(s, i);
    OwnElement(s, Current(s).base + i);
  }
}
