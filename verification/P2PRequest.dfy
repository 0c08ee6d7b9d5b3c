/** A whole request (requestImpl and request of src/P2P/P2P_Ips.cpp): cut, handed out, downloaded and put together. */
module P2PRequest {
  import opened Bytes
  import opened P2PQueue
  import opened P2PProtocol
  import opened P2PInvariant
  import opened P2PTheorems
  import opened P2PSegments

  // ----- preparing -----

  ghost predicate DistinctServers(servers: seq<Server>)
  {
    forall i, j :: 0 <= i < j < |servers| ==> servers[i] != servers[j]
  }

  ghost predicate UnitIntervals(segments: seq<Segment>)
  {
    forall i :: 0 <= i < |segments| ==> segments[i] == Segment(i, i + 1, i)
  }

  /** The threads of a plan are distinct, numbered below `threads`, and serve exactly these servers. */
  ghost predicate PlanFor(plan: seq<(nat, Server)>, servers: seq<Server>, threads: nat)
  {
    plan != [] && PlanServers(plan) == (set v | v in servers) &&
    (forall i, j :: 0 <= i < j < |plan| ==> plan[i].0 != plan[j].0) &&
    (forall i :: 0 <= i < |plan| ==> plan[i].0 < threads)
  }

  /** Every server gets the same number of threads. */
  ghost predicate PlanCounts(plan: seq<(nat, Server)>, count: nat, servers: seq<Server>, connections: nat)
  {
    exists used: nat ::
      ThreadCount(used, count, |servers|, connections) && ThreadsAt(plan, servers, connections, used)
  }

  /** What a request of `size` bytes hands to the protocol. */
  ghost predicate Prepared(segments: seq<Segment>, plan: seq<(nat, Server)>, servers: seq<Server>, connections: nat,
                           size: nat, minSize: nat)
    requires minSize > 0
  {
    var threads := GroupStart(|servers|, connections);
    SegmentCount(|segments|, size, minSize, threads) && Tiles(segments, size) && NoneEmpty(segments) &&
    EvenCut(segments, size, minSize) && (minSize == 1 ==> UnitIntervals(segments)) &&
    PlanFor(plan, servers, threads) && PlanCounts(plan, |segments|, servers, connections)
  }

  /** Hands the task to the threads of the distribution, one by one. */
  method HandOut(distribution: seq<Distribution>) returns (plan: seq<(nat, Server)>)
    requires forall i :: 0 <= i < |distribution| ==> distribution[i].from <= distribution[i].to
    ensures plan == PlanOf(distribution)
  {
    hide ThreadsOf;
    plan := [];
    for i := 0 to |distribution|
      invariant plan == PlanOf(distribution[..i])
    {
      var threads := HandOutOne(distribution[i]);
      assert distribution[..i + 1][..i] == distribution[..i];
      plan := plan + threads;
    }
    assert distribution[..|distribution|] == distribution;
  }

  method HandOutOne(d: Distribution) returns (plan: seq<(nat, Server)>)
    requires d.from <= d.to
    ensures plan == ThreadsOf(d)
  {
    plan := [];
    var index := d.from;
    while index < d.to
      invariant d.from <= index <= d.to && |ThreadsOf(d)| == d.to - d.from && plan == ThreadsOf(d)[..index - d.from]
    {
      ThreadsNext(d, index);
      plan := plan + [(index, d.server)];
      index := index + 1;
    }
    assert ThreadsOf(d)[..d.to - d.from] == ThreadsOf(d);
  }

  lemma ThreadsNext(d: Distribution, index: nat)
    requires d.from <= index < d.to
    ensures ThreadsOf(d)[..index + 1 - d.from] == ThreadsOf(d)[..index - d.from] + [(index, d.server)]
  {
  }

  /** Fails exactly for a size of zero and for one so close to 2^64 that the number of segments wraps around to zero;
      otherwise segments and plan fit each other and the servers. */
  method RequestImpl(servers: seq<Server>, connections: nat, size: nat, minSize: nat)
    returns (ok: bool, segments: seq<Segment>, plan: seq<(nat, Server)>)
    requires servers != [] && DistinctServers(servers) && connections > 0
    requires size < SIZE_LIMIT && 0 < minSize < SIZE_LIMIT
    ensures ok <==> size > 0 && (minSize == 1 || size + minSize <= SIZE_LIMIT)
    ensures ok ==> Prepared(segments, plan, servers, connections, size, minSize)
  {
    hide GroupStart; hide CountSegments; hide Tiles; hide NoneEmpty; hide ListOf; hide PlanOf; hide StepSize;
    hide PlanFor; hide Connections; hide UnitIntervals; hide EvenCut; hide ThreadsAt; hide ThreadCount;
    hide SegmentCount;
    segments, plan := [], [];
    if size == 0 { return false, [], []; }
    GroupsExist(|servers|, connections);
    var count := CountSegments(size, minSize, GroupStart(|servers|, connections));
    if size > 0 && (minSize == 1 || size + minSize <= SIZE_LIMIT) {
      CountIs(size, minSize, GroupStart(|servers|, connections));
    }
    RequestNoneEmpty(size, minSize, GroupStart(|servers|, connections));
    var distribution := GetServersList(servers, count, connections);
    ok, segments := MakeSegments(count, size, minSize);
    if !ok { return; }
    DistinctSpread(distribution, servers, count, connections);
    SpreadRanges(distribution, servers, connections, Connections(count, |servers|, connections));
    plan := HandOut(distribution);
    SpreadPlan(distribution, servers, connections, Connections(count, |servers|, connections));
    PlanLists(distribution, servers, connections, Connections(count, |servers|, connections));
    UsedIs(count, |servers|, connections);
    if minSize == 1 { AllUnit(segments, size, GroupStart(|servers|, connections)); }
  }

  lemma GroupsExist(servers: nat, connections: nat)
    requires servers > 0 && connections > 0
    ensures GroupStart(servers, connections) > 0
  {
  }

  lemma SpreadRanges(d: seq<Distribution>, servers: seq<Server>, connections: nat, used: nat)
    requires Spread(d, servers, connections, used)
    ensures forall i :: 0 <= i < |d| ==> d[i].from <= d[i].to
  {
    hide GroupStart;
  }

  lemma SpreadPlan(d: seq<Distribution>, servers: seq<Server>, connections: nat, used: nat)
    requires Spread(d, servers, connections, used) && servers != []
    ensures PlanFor(PlanOf(d), servers, GroupStart(|servers|, connections))
  {
    hide GroupStart; hide PlanOf; hide Spread;
    PlanIsOk(d, servers, connections, used);
    assert servers[0] in PlanServers(PlanOf(d));
  }

  lemma AllUnit(segments: seq<Segment>, size: nat, threads: nat)
    requires Tiles(segments, size) && NoneEmpty(segments) && |segments| == CountSegments(size, 1, threads)
    ensures UnitIntervals(segments)
  {
    forall i | 0 <= i < |segments| ensures segments[i] == Segment(i, i + 1, i) { UnitSegments(segments, size, i); }
  }

  // ----- starting -----

  /** A prepared request can be started whenever no task is running. */
  lemma CanStart(s: State, segments: seq<Segment>, plan: seq<(nat, Server)>, servers: seq<Server>, connections: nat,
                 size: nat, minSize: nat, precise: bool)
    requires minSize > 0 && Prepared(segments, plan, servers, connections, size, minSize) && s.main.Between?
    requires forall i :: 0 <= i < GroupStart(|servers|, connections) ==> i in s.threads
    ensures Enabled(s, StartTask(segments, plan, precise))
  {
    hide GroupStart; hide CountSegments;
  }

  // ----- until the end -----

  /** From its start on, a task keeps its segments, its servers, its mode and the number of its first element. */
  ghost predicate IsTask(s: State, t: nat, start: Action, base: nat)
    requires start.StartTask?
  {
    t in s.tasks && s.tasks[t].segments == start.segments && s.tasks[t].precise == start.precise &&
    s.tasks[t].servers == PlanServers(start.plan) && s.tasks[t].base == base
  }

  lemma TaskStays(s: State, a: Action, t: nat, start: Action, base: nat)
    requires Inv(s) && Enabled(s, a) && start.StartTask? && IsTask(s, t, start, base)
    ensures IsTask(Step(s, a), t, start, base)
  {
    hide LeftOk; hide ErrorOk; hide RangesOk; hide SlotsOk; hide CoverOk; hide MainOk; hide PairsOk; hide AcceptedOk;
    hide DispatchOk; hide ElementsOk; hide OrderOk; hide LastFree; hide ThreadsOk; hide Without; hide Acceptable;
    hide NumbersOk; hide PlanServers;
    assert TaskOk(s.tasks[t], t, s.q.taskId, Over(s.main));
  }

  lemma {:induction false} RunTask(states: seq<State>, actions: seq<Action>, k: nat, n: nat)
    requires IsRun(states, actions) && k < n < |states| && actions[k].StartTask?
    ensures IsTask(states[n], states[k].q.taskId + 1, actions[k], states[k].q.next)
    decreases n
  {
    hide Inv; hide Enabled; hide Step; hide IsTask; hide Init;
    if n == k + 1 {
      TaskStarts(states[k], actions[k]);
    } else {
      RunTask(states, actions, k, n - 1);
      RunInv(states, actions, n - 1);
      TaskStays(states[n - 1], actions[n - 1], states[k].q.taskId + 1, actions[k], states[k].q.next);
    }
  }

  lemma TaskStarts(s: State, a: Action)
    requires Enabled(s, a) && a.StartTask?
    ensures IsTask(Step(s, a), s.q.taskId + 1, a, s.q.next)
  {
  }

  /** The run is at the end of the request started by action `k`. */
  ghost predicate AtEndOf(states: seq<State>, actions: seq<Action>, k: nat)
    requires IsRun(states, actions)
  {
    var s := states[|actions|];
    k < |actions| && actions[k].StartTask? && Ended(s) && s.q.taskId == states[k].q.taskId + 1
  }

  /** In every interleaving, a prepared request either ends with an error, exactly when some segment failed on every
      server, or its answers put together are the requested bytes, whenever the servers told the truth; in exact-size
      mode they have the requested length whatever the servers told. */
  lemma RequestOutcome(states: seq<State>, actions: seq<Action>, k: nat, servers: seq<Server>, connections: nat,
                       minSize: nat, content: Data)
    requires IsRun(states, actions) && AtEndOf(states, actions, k) && minSize > 0
    requires Prepared(actions[k].segments, actions[k].plan, servers, connections, |content|, minSize)
    ensures var s := states[|actions|];
            s.q.taskId in s.tasks && (s.main.error <==> exists i :: SegmentFailed(s, i)) &&
            (!s.main.error && actions[k].precise ==> |Flatten(Current(s).answers)| == |content|) &&
            (!s.main.error && (forall i :: 0 <= i < |actions| ==>
              Truthful(states[i], actions[i], s.q.taskId, content)) ==>
               Flatten(Current(s).answers) == content)
  {
    hide Inv; hide Enabled; hide Step; hide Init; hide Truthful; hide Flatten; hide SegmentFailed; hide NoneEmpty;
    hide PlanFor;
    hide UnitIntervals; hide GroupStart; hide CountSegments; hide Tiles;
    var s := states[|actions|];
    RunTask(states, actions, k, |actions|);
    assert Reachable(s);
    ErrorMeansFailed(s);
    if !s.main.error {
      if actions[k].precise { ExactLength(s, |content|); }
      if forall i :: 0 <= i < |actions| ==> Truthful(states[i], actions[i], s.q.taskId, content) {
        RequestReturnsContent(states, actions, content);
      }
    }
  }
}
