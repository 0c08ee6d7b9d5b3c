/** Every task of the download protocol comes to its end: worker actions run out, and when they do the queue is
    empty. */
module P2PProgress {
  import opened Bytes
  import opened P2PQueue
  import opened P2PProtocol
  import opened P2PInvariant
  import opened P2PWorkers
  import opened P2PTheorems
  import opened Totals

  // ----- whom a worker waits for -----

  /** A worker's copied task number is its own or an older one; it parks only when its task is over. */
  ghost predicate RoundOk(th: Thread, taskId: nat, stopped: bool)
  {
    th.task <= taskId &&
    (th.pc.Parked? ==> th.pc.task <= taskId && (!stopped ==> th.pc.task < taskId)) &&
    (th.pc.HasSnap() ==> th.pc.snap.task <= th.task && (th.pc.snap.task == th.task ==> th.pc.snap.server == th.server))
  }

  ghost predicate RoundsOk(s: State)
  {
    forall i :: i in s.threads ==> RoundOk(s.threads[i], s.q.taskId, s.q.stopped)
  }

  lemma StepRounds(s: State, a: Action)
    requires Inv(s) && RoundsOk(s) && Enabled(s, a)
    ensures RoundsOk(Step(s, a))
  {
    if IsMain(a) {
      MainRounds(s, a);
    } else {
      WorkerRounds(s, a);
    }
  }

  lemma MainRounds(s: State, a: Action)
    requires Inv(s) && RoundsOk(s) && IsMain(a) && MainEnabled(s, a)
    ensures RoundsOk(MainStep(s, a))
  {
    hide Rest; hide CoverOk; hide PairsOk; hide OrderOk; hide ThreadsOk; hide PlanServers; hide PlanOk;
    var s' := MainStep(s, a);
    forall i | i in s'.threads ensures RoundOk(s'.threads[i], s'.q.taskId, s'.q.stopped) {
      assert RoundOk(s.threads[i], s.q.taskId, s.q.stopped);
      OwnThread(s, i);
    }
  }

  lemma WorkerRounds(s: State, a: Action)
    requires Inv(s) && RoundsOk(s) && !IsMain(a) && a.tid in s.threads && ThreadEnabled(s, a, s.threads[a.tid])
    ensures RoundsOk(ThreadStep(s, a))
  {
    hide Inv; hide LastFree; hide ErrorCount; hide Without; hide Acceptable; hide Answered;
    var s' := ThreadStep(s, a);
    assert RoundOk(s.threads[a.tid], s.q.taskId, s.q.stopped);
    forall i | i in s'.threads ensures RoundOk(s'.threads[i], s'.q.taskId, s'.q.stopped) {
      assert i != a.tid ==> s'.threads[i] == s.threads[i];
    }
  }

  lemma {:induction false} RunRounds(states: seq<State>, actions: seq<Action>, n: nat)
    requires IsRun(states, actions) && n < |states|
    ensures Inv(states[n]) && RoundsOk(states[n])
  {
    hide Inv; hide Enabled; hide Step;
    RunInv(states, actions, n);
    if n > 0 {
      hide Init;
      RunRounds(states, actions, n - 1);
      StepRounds(states[n - 1], actions[n - 1]);
    }
  }

  /** The next action of a worker that is not waiting for anything. */
  function Next(s: State, tid: nat): (a: Action)
    requires tid in s.threads
  {
    match s.threads[tid].pc
    case Looping => TakeSnapshot(tid)
    case Parked(_) => TakeSnapshot(tid)
    case Fetching(snap) => if snap.task != s.q.taskId || s.q.stopped then GetClosed(tid) else GetElement(tid)
    case Given(_, _) => GetSegment(tid)
    case HasSegment(_, _, _) => BeginBuild(tid)
    case Building(_, _, _) => EndBuild(tid)
    case Requesting(_, _, _) => Respond(tid, false)
    case Responded(_, _, _) => BeginParse(tid)
    case Parsing(_, _, _) => EndParse(tid, [], true)
    case Removing(_, _) => RemoveStep(tid)
    case Failing(_, _) => ErrorStep(tid)
    case Dropping(_, _) => DropStep(tid)
  }

  /** A worker that holds an element can always go on. */
  lemma HolderGoesOn(s: State, tid: nat)
    requires Inv(s) && tid in s.threads && s.threads[tid].pc.Holds()
    ensures Enabled(s, Next(s, tid))
  {
    hide LeftOk; hide ErrorOk; hide NumbersOk; hide RangesOk; hide SlotsOk; hide AcceptedOk; hide CoverOk; hide MainOk;
    hide PairsOk;
    hide DispatchOk; hide ElementsOk; hide OrderOk;
    assert ThreadOk(s.q, s.tasks, s.accepted, s.threads[tid]);
    var pc := s.threads[tid].pc;
    ElementShaped(s, pc.id);
    assert TaskOk(s.tasks[pc.snap.task], pc.snap.task, s.q.taskId, Over(s.main));
  }

  // ----- somebody can always go on -----

  /** A worker waiting for the running task that has something to fetch, or that has to notice the task, can go on. */
  lemma WaiterGoesOn(s: State, tid: nat, id: nat, v: Server)
    requires RoundsOk(s) && AssignedTo(s.threads, s.q.taskId, tid, v) && !s.q.stopped && !s.threads[tid].pc.Holds()
    requires id in s.q.order && Free(s.q, id, v)
    ensures Enabled(s, Next(s, tid))
  {
    assert RoundOk(s.threads[tid], s.q.taskId, s.q.stopped);
  }

  /** A waiting task whose queue is not empty is never stuck. */
  lemma NeverStuck(s: State) returns (tid: nat)
    requires Inv(s) && RoundsOk(s) && s.main.Waiting? && s.q.order != []
    ensures tid in s.threads && Enabled(s, Next(s, tid))
  {
    hide Inv; hide RoundsOk; hide Enabled; hide Next;
    if i: nat :| i in s.threads && s.threads[i].pc.Holds() {
      HolderGoesOn(s, i);
      return i;
    }
    var id, v := SomethingFree(s);
    tid := SomeWorker(s, v);
    WaiterGoesOn(s, tid, id, v);
  }

  lemma SomethingFree(s: State) returns (id: nat, v: Server)
    requires Inv(s) && Idle(s) && s.q.order != []
    ensures s.q.taskId in s.tasks && id in s.q.order && v in Current(s).servers && Free(s.q, id, v)
  {
    hide Inv;
    QueuedAlive(s, s.q.order[0]);
    IdleDrained(s);
    id, v :| id in s.q.order && v in Current(s).servers && Free(s.q, id, v);
  }

  lemma SomeWorker(s: State, v: Server) returns (tid: nat)
    requires Inv(s) && s.main.Waiting? && s.q.taskId in s.tasks && v in Current(s).servers
    ensures AssignedTo(s.threads, s.q.taskId, tid, v) && !s.q.stopped
  {
    hide Rest; hide PairsOk; hide OrderOk; hide ThreadsOk; hide PlanOkNow;
    assert Covered(s, v);
    tid :| AssignedTo(s.threads, s.q.taskId, tid, v);
  }

  // ----- the work left -----

  function Rank(th: Thread): nat
  {
    match th.pc
    case Parked(t) => if t == th.task then 0 else 2
    case Fetching(snap) => if snap.task == th.task then 1 else 3
    case Looping => 2
    case Dropping(_, _) => 3
    case Removing(_, _) => 3
    case Failing(_, _) => 4
    case Parsing(_, _, _) => 5
    case Responded(_, _, _) => 6
    case Requesting(_, _, _) => 7
    case Building(_, _, _) => 8
    case HasSegment(_, _, _) => 9
    case Given(_, _) => 10
  }

  function Ranks(threads: map<nat, Thread>): map<nat, int> { map i | i in threads :: Rank(threads[i]) }

  /** Every dispatch there can be. */
  function Possible(elements: map<nat, Element>, tasks: Tasks): set<(nat, Server)>
  {
    set id, v | id in elements && elements[id].task in tasks && v in tasks[elements[id].task].servers :: (id, v)
  }

  ghost function Work(s: State): int
  {
    10 * (|Possible(s.q.elements, s.tasks)| - |s.dispatched|) + Total(Ranks(s.threads))
  }

  lemma {:induction false} TotalNonNegative(m: map<nat, int>)
    requires forall k :: k in m ==> m[k] >= 0
    ensures Total(m) >= 0
    decreases |m|
  {
    if m != map[] {
      var k :| k in m && Total(m) == m[k] + Total(m - {k});
      TotalNonNegative(m - {k});
    }
  }

  lemma {:induction false} DistinctCard<T>(s: seq<T>)
    requires forall i, j :: 0 <= i < j < |s| ==> s[i] != s[j]
    ensures |set x | x in s| == |s|
  {
    if s != [] {
      var front, last := s[..|s| - 1], s[|s| - 1];
      DistinctCard(front);
      assert (set x | x in s) == (set x | x in front) + {last};
    }
  }

  lemma DispatchesBounded(s: State)
    requires ElementsOk(s.q, s.tasks) && DispatchOk(s.q.elements, s.dispatched)
    ensures |s.dispatched| <= |Possible(s.q.elements, s.tasks)|
  {
    DistinctCard(s.dispatched);
    var done := set x | x in s.dispatched;
    forall x | x in done ensures x in Possible(s.q.elements, s.tasks) {
      var (id, v) := x;
      assert (id, v) in s.dispatched;
      assert ElementShape(s.q, s.tasks, id);
    }
    SubsetCard(done, Possible(s.q.elements, s.tasks));
  }

  lemma WorkNonNegative(s: State)
    requires Inv(s)
    ensures Work(s) >= 0
  {
    hide LeftOk; hide ErrorOk; hide NumbersOk; hide RangesOk; hide SlotsOk; hide AcceptedOk; hide CoverOk; hide MainOk;
    hide PairsOk;
    hide OrderOk; hide ThreadsOk; hide TasksOk; hide ElementsOk; hide DispatchOk; hide Possible;
    DispatchesBounded(s);
    TotalNonNegative(Ranks(s.threads));
  }

  /** A worker action changes no task's servers and no element's task. */
  lemma SamePossible(s: State, a: Action)
    requires Inv(s) && Enabled(s, a) && !IsMain(a)
    ensures Possible(Step(s, a).q.elements, Step(s, a).tasks) == Possible(s.q.elements, s.tasks)
  {
    hide Inv;
    var s' := Step(s, a);
    OwnThread(s, a.tid);
    assert s'.q.elements.Keys == s.q.elements.Keys;
    assert forall id :: id in s.q.elements ==> s'.q.elements[id].task == s.q.elements[id].task;
    assert s'.tasks.Keys == s.tasks.Keys;
    assert forall t :: t in s.tasks ==> s'.tasks[t].servers == s.tasks[t].servers;
  }

  lemma RankStep(s: State, a: Action)
    requires RoundsOk(s) && Enabled(s, a) && !IsMain(a) && !s.q.stopped && s.q.taskId in s.tasks
    requires ThreadOk(s.q, s.tasks, s.accepted, s.threads[a.tid])
    ensures a.tid in Step(s, a).threads
    ensures Rank(Step(s, a).threads[a.tid]) < Rank(s.threads[a.tid]) + 10 * (|Step(s, a).dispatched| - |s.dispatched|)
  {
    hide LastFree; hide HoldOk; hide Acceptable; hide Answered; hide Give; hide Record; hide Without; hide Assigned;
    assert RoundOk(s.threads[a.tid], s.q.taskId, s.q.stopped);
  }

  lemma OneThread(s: State, a: Action)
    requires Enabled(s, a) && !IsMain(a) && a.tid in Step(s, a).threads
    ensures Step(s, a).threads == s.threads[a.tid := Step(s, a).threads[a.tid]]
  {
    hide LastFree; hide Acceptable; hide Answered; hide Give; hide Record; hide Without;
  }

  /** Every worker action of a waiting task uses up work. */
  lemma WorkDecreases(s: State, a: Action)
    requires Inv(s) && RoundsOk(s) && Enabled(s, a) && !IsMain(a) && s.main.Waiting?
    ensures Work(Step(s, a)) < Work(s)
  {
    hide Possible; hide Rank; hide Step; hide RoundsOk; hide Rest; hide CoverOk; hide PairsOk; hide OrderOk;
    hide ThreadsOk; hide ThreadEnabled;
    SamePossible(s, a);
    OwnThread(s, a.tid);
    RankStep(s, a);
    OneThread(s, a);
    var th := Step(s, a).threads[a.tid];
    TotalPut(Ranks(s.threads), a.tid, Rank(th));
    assert Ranks(s.threads[a.tid := th]) == Ranks(s.threads)[a.tid := Rank(th)];
  }

  // ----- every task ends -----

  /** Worker actions only, one after the other. */
  ghost predicate WorkerPath(states: seq<State>, actions: seq<Action>)
  {
    |states| == |actions| + 1 &&
    forall i :: 0 <= i < |actions| ==>
      !IsMain(actions[i]) && Enabled(states[i], actions[i]) && states[i + 1] == Step(states[i], actions[i])
  }

  lemma {:induction false} PathWork(states: seq<State>, actions: seq<Action>)
    requires WorkerPath(states, actions) && Inv(states[0]) && RoundsOk(states[0]) && states[0].main.Waiting?
    ensures |actions| <= Work(states[0]) && Work(states[0]) >= 0
    decreases |actions|
  {
    hide Inv; hide RoundsOk; hide Enabled; hide Work;
    WorkNonNegative(states[0]);
    if actions != [] {
      var s, a := states[0], actions[0];
      assert !IsMain(a) && Enabled(s, a) && states[1] == Step(s, a);
      StepInv(s, a);
      StepRounds(s, a);
      WorkDecreases(s, a);
      WaitsOn(s, a);
      hide Step;
      PathWork(states[1..], actions[1..]);
    }
  }

  lemma WaitsOn(s: State, a: Action)
    requires Enabled(s, a) && !IsMain(a)
    ensures Step(s, a).main == s.main
  {
  }

  /** While the caller waits for a task, only a bounded number of worker actions can happen, whatever the servers answer
      and however the workers interleave. */
  lemma WorkersRunOut(states: seq<State>, actions: seq<Action>)
    requires WorkerPath(states, actions) && Reachable(states[0]) && states[0].main.Waiting?
    ensures |actions| <= Work(states[0])
  {
    hide Inv; hide RoundsOk; hide Enabled; hide Work; hide Step;
    ReachableRounds(states[0]);
    PathWork(states, actions);
  }

  lemma ReachableRounds(s: State)
    requires Reachable(s)
    ensures Inv(s) && RoundsOk(s)
  {
    hide Inv; hide Init; hide Enabled; hide Step; hide RoundsOk;
    var states, actions :| IsRun(states, actions) && s == states[|actions|];
    RunRounds(states, actions, |actions|);
  }

  /** And when no worker can act any more, the queue is empty and the caller goes on. */
  lemma ThenTheWaitEnds(s: State)
    requires Reachable(s) && s.main.Waiting? && forall a :: !IsMain(a) ==> !Enabled(s, a)
    ensures s.q.order == [] && Enabled(s, WaitDone)
  {
    hide Rest; hide CoverOk; hide PairsOk; hide OrderOk; hide ThreadsOk;
    ReachableRounds(s);
    if s.q.order != [] {
      var tid := NeverStuck(s);
      assert false;
    }
  }
}
