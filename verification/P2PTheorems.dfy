/** What the download protocol promises in every interleaving of every sequence of tasks. */
module P2PTheorems {
  import opened Bytes
  import opened P2PQueue
  import opened P2PProtocol
  import opened P2PInvariant
  import opened P2PWorkers
  import opened P2PMain

  lemma StepInv(s: State, a: Action)
    requires Inv(s) && Enabled(s, a)
    ensures Inv(Step(s, a))
  {
    hide Inv; hide MainEnabled; hide ThreadEnabled; hide Step;
    if IsMain(a) {
      MainStepInv(s, a);
    } else {
      WorkerStepInv(s, a);
    }
  }

  lemma MainStepInv(s: State, a: Action)
    requires Inv(s) && Enabled(s, a) && IsMain(a)
    ensures Inv(Step(s, a))
  {
    hide Inv; hide Enabled; hide Step;
    match a
    case StartTask(_, _, _) => StartTaskStep(s, a);
    case Assign => AssignStep(s, a);
    case PlanDone => TurnStep(s, a);
    case AddSegment => AddSegmentStep(s, a);
    case AllAdded => TurnStep(s, a);
    case WaitDone => TurnStep(s, a);
    case Destroy => DestroyStep(s, a);
    case StopQueue => StopStep(s, a);
  }

  lemma WorkerStepInv(s: State, a: Action)
    requires Inv(s) && Enabled(s, a) && !IsMain(a)
    ensures Inv(Step(s, a))
  {
    hide Inv; hide Enabled; hide Step;
    if Moves(s, a) {
      MoveStep(s, a);
    } else {
      match a
      case GetElement(_) => GetElementStep(s, a);
      case EndParse(_, _, _) => AcceptStep(s, a);
      case RemoveStep(_) => RemoveElementStep(s, a);
      case ErrorStep(_) => ErrorElementStep(s, a);
      case DropStep(_) => DropElementStep(s, a);
    }
  }

  lemma {:induction false} RunInv(states: seq<State>, actions: seq<Action>, n: nat)
    requires IsRun(states, actions) && n < |states|
    ensures Inv(states[n])
  {
    hide Inv; hide Enabled; hide Step; hide Init;
    if n == 0 {
      InitInv(states[0]);
    } else {
      RunInv(states, actions, n - 1);
      StepInv(states[n - 1], actions[n - 1]);
    }
  }

  ghost predicate Reachable(s: State)
  {
    exists states, actions :: IsRun(states, actions) && s == states[|actions|]
  }

  lemma ReachableInv(s: State)
    requires Reachable(s)
    ensures Inv(s)
  {
    hide Inv; hide Init; hide Enabled; hide Step;
    var states, actions :| IsRun(states, actions) && s == states[|actions|];
    RunInv(states, actions, |actions|);
  }

  // ----- each segment goes to each server at most once -----

  /** A server works on an element: from being given it until it answered, failed, or found the element gone. */
  ghost predicate InFlight(s: State, id: nat, server: Server)
  {
    exists i :: FliesOn(s.threads, i, id, server)
  }

  /** No (segment, server) pair is dispatched twice, and a queued element's servers are exactly the failed ones and,
      apart from these, the ones in flight. */
  lemma DispatchedOnce(s: State)
    requires Reachable(s)
    ensures forall i, j :: 0 <= i < j < |s.dispatched| ==> s.dispatched[i] != s.dispatched[j]
    ensures forall id :: id in s.q.order ==> id in s.q.elements
    ensures forall id, v :: id in s.q.order ==>
              ((id, v) in s.dispatched <==> v in s.q.elements[id].servers) &&
              (v in s.q.elements[id].servers <==> v in s.q.elements[id].errors || InFlight(s, id, v)) &&
              !(v in s.q.elements[id].errors && InFlight(s, id, v))
  {
    hide LeftOk; hide ErrorOk; hide NumbersOk; hide RangesOk; hide SlotsOk; hide AcceptedOk; hide CoverOk; hide MainOk;
    hide TasksOk; hide PairsOk;
    ReachableInv(s);
    forall id, v | id in s.q.order
      ensures id in s.q.elements && ((id, v) in s.dispatched <==> v in s.q.elements[id].servers)
      ensures v in s.q.elements[id].servers <==> v in s.q.elements[id].errors || InFlight(s, id, v)
      ensures !(v in s.q.elements[id].errors && InFlight(s, id, v))
    {
      FlightServers(s, id, v);
      ElementShaped(s, id);
    }
  }

  lemma FlightServers(s: State, id: nat, v: Server)
    requires Inv(s)
    ensures InFlight(s, id, v) ==> id in s.q.elements && v in s.q.elements[id].servers && v !in s.q.elements[id].errors
  {
    hide Rest; hide CoverOk; hide MainOk; hide PairsOk; hide OrderOk;
    if i :| FliesOn(s.threads, i, id, v) { assert ThreadOk(s.q, s.tasks, s.accepted, s.threads[i]); }
  }

  // ----- no lost element -----

  ghost predicate Idle(s: State) { forall i :: i in s.threads ==> !s.threads[i].pc.Holds() }

  /** Nobody can fetch anything any more. */
  ghost predicate Drained(s: State)
  {
    s.q.taskId in s.tasks ==> forall id, v :: id in s.q.order && v in Current(s).servers ==> !Free(s.q, id, v)
  }

  /** With nothing in a worker's hands and nothing left to fetch, the queue is empty, so the wait ends. */
  lemma NothingLost(s: State)
    requires Reachable(s) && Idle(s) && Drained(s)
    ensures s.q.order == []
  {
    hide Inv; hide Idle; hide Drained;
    ReachableInv(s);
    IdleDrained(s);
  }

  lemma IdleDrained(s: State)
    requires Inv(s) && Idle(s)
    ensures Drained(s) ==> s.q.order == []
  {
    hide LeftOk; hide ErrorOk; hide NumbersOk; hide RangesOk; hide SlotsOk; hide AcceptedOk; hide CoverOk; hide MainOk;
    hide TasksOk; hide PairsOk;
    hide DispatchOk; hide ThreadsOk;
    if s.q.order != [] && Drained(s) {
      var id := s.q.order[0];
      ElementShaped(s, id);
      assert Busy(s.threads, s.q.elements[id], s.tasks[s.q.taskId].servers, id);
      forall i ensures !DropsOn(s.threads, i, id) { }
      forall v | v in Current(s).servers ensures v in s.q.elements[id].errors {
        assert !Free(s.q, id, v);
        forall i ensures !FliesOn(s.threads, i, id, v) { }
      }
    }
  }

  // ----- the error flag and the answers -----

  ghost predicate Ended(s: State) { s.main.Read? || s.main.Destroyed? }

  /** Segment `i` of the running task failed on every server of the task. */
  ghost predicate SegmentFailed(s: State, i: nat)
    requires s.q.taskId in s.tasks
  {
    i < |Current(s).segments| && Current(s).base + i in s.q.elements &&
      s.q.elements[Current(s).base + i].errors == Current(s).servers
  }

  /** A task ends with an error exactly when some segment of it failed on every server. */
  lemma ErrorMeansFailed(s: State)
    requires Reachable(s) && Ended(s)
    ensures s.q.taskId in s.tasks
    ensures s.main.error <==> exists i :: SegmentFailed(s, i)
  {
    hide LeftOk; hide RangesOk; hide SlotsOk; hide AcceptedOk; hide CoverOk; hide TasksOk; hide PairsOk;
    hide ThreadsOk; hide OrderOk;
    hide DispatchOk;
    ReachableInv(s);
    var task := Current(s);
    if s.main.error {
      var id: nat :| Dropped(s.q, s.tasks, id);
      OwnElement(s, id);
      assert SegmentFailed(s, id - task.base);
    }
    if i: nat :| SegmentFailed(s, i) {
      OwnElement(s, task.base + i);
      assert Dropped(s.q, s.tasks, task.base + i);
    }
  }

  /** Elements `base` to `base + |segments|` are the elements of the running task. */
  lemma OwnElement(s: State, id: nat)
    requires Inv(s) && s.q.taskId in s.tasks && id in s.q.elements
    ensures ElementShape(s.q, s.tasks, id)
    ensures Current(s).base <= id < Current(s).base + |Current(s).segments| <==> s.q.elements[id].task == s.q.taskId
  {
    hide LeftOk; hide ErrorOk; hide SlotsOk; hide AcceptedOk; hide CoverOk; hide TasksOk; hide PairsOk; hide ThreadsOk;
    hide OrderOk;
    hide DispatchOk; hide MainOk; hide NumbersOk;
    assert ElementShape(s.q, s.tasks, id);
  }

  /** A task that ends without an error has, in every slot, an accepted response of the slot's own segment. */
  lemma AnswersComplete(s: State, i: nat)
    requires Reachable(s) && Ended(s) && !s.main.error && s.q.taskId in s.tasks && i < |Current(s).segments|
    ensures var task := Current(s);
            |task.answers| == |task.segments| && WasAccepted(s.accepted, task.base + i, task.answers[i]) &&
            (task.precise ==> |task.answers[i]| == task.segments[i].toByte - task.segments[i].fromByte)
  {
    hide RangesOk; hide CoverOk; hide PairsOk; hide ThreadsOk; hide OrderOk; hide DispatchOk; hide FailedEverywhere;
    hide ElementsOk;
    ReachableInv(s);
    var task := Current(s);
    var id := task.base + i;
    OwnElement(s, id);
    assert TaskOk(task, s.q.taskId, s.q.taskId, Over(s.main));
    assert !Dropped(s.q, s.tasks, id);
    assert HasAccepted(s.accepted, id);
    var d :| WasAccepted(s.accepted, id, d);
    assert SlotOk(s.accepted, id, task.answers[i]);
  }

  // ----- tasks do not meet -----

  /** Whatever a worker holds belongs to the task it took its number, its callbacks and its server list from. */
  lemma OwnTaskOnly(s: State, tid: nat)
    requires Reachable(s) && tid in s.threads && s.threads[tid].pc.Holds()
    ensures var pc := s.threads[tid].pc;
            pc.id in s.q.elements && s.q.elements[pc.id].task == pc.snap.task && pc.snap.refs == pc.snap.task &&
            pc.snap.task in s.tasks && pc.snap.server in s.tasks[pc.snap.task].servers &&
            (pc.HasSeg() ==> pc.segment == s.q.elements[pc.id].segment)
  {
    hide Rest; hide CoverOk; hide PairsOk; hide OrderOk; hide MainOk;
    ReachableInv(s);
    assert ThreadOk(s.q, s.tasks, s.accepted, s.threads[tid]);
  }

  /** A worker with an old task number is given nothing, and a handle of an old task changes nothing in the queue. */
  lemma StaleIsHarmless(s: State, tid: nat, a: Action)
    requires Reachable(s) && !IsMain(a) && a.tid == tid && Enabled(s, a)
    requires s.threads[tid].pc.HasSnap() && s.threads[tid].pc.snap.task != s.q.taskId
    ensures Step(s, a).q == s.q && Step(s, a).dispatched == s.dispatched
  {
    hide LeftOk; hide ErrorOk; hide NumbersOk; hide RangesOk; hide SlotsOk; hide AcceptedOk; hide CoverOk; hide MainOk;
    hide TasksOk; hide PairsOk;
    hide DispatchOk; hide ElementsOk; hide Busy; hide HasAccepted;
    ReachableInv(s);
    var th := s.threads[tid];
    assert ThreadOk(s.q, s.tasks, s.accepted, th);
    if th.pc.Holds() {
      assert th.pc.id !in s.q.order;
      WithoutAbsent(s.q.order, th.pc.id);
    }
  }

  // ----- after destroy -----

  lemma NoCallback(s: State, t: nat)
    requires Inv(s) && t in s.tasks && s.tasks[t].destroyed
    ensures forall i :: i in s.threads && s.threads[i].pc.InCallback() ==> s.threads[i].pc.snap.refs != t
  {
    hide Rest; hide CoverOk; hide PairsOk; hide OrderOk; hide MainOk; hide HasAccepted;
    forall i | i in s.threads && s.threads[i].pc.InCallback() ensures s.threads[i].pc.snap.refs != t {
      assert ThreadOk(s.q, s.tasks, s.accepted, s.threads[i]);
    }
  }

  lemma DestroyedStays(s: State, a: Action, t: nat)
    requires Inv(s) && Enabled(s, a) && t in s.tasks && s.tasks[t].destroyed
    ensures t in Step(s, a).tasks && Step(s, a).tasks[t] == s.tasks[t]
  {
    hide LeftOk; hide ErrorOk; hide NumbersOk; hide RangesOk; hide SlotsOk; hide AcceptedOk; hide CoverOk; hide PairsOk;
    hide DispatchOk; hide ElementsOk; hide OrderOk; hide ThreadsOk; hide PlanOkNow;
    NoCallback(s, t);
    assert TaskOk(s.tasks[t], t, s.q.taskId, Over(s.main));
  }

  /** Once a task's callbacks are destroyed, at no later point of the run is a worker inside one of them, and neither
      the answers nor anything else the callbacks refer to is written again. */
  lemma {:induction false} QuietAfterDestroy(states: seq<State>, actions: seq<Action>, n: nat, m: nat, t: nat)
    requires IsRun(states, actions) && n <= m < |states| && t in states[n].tasks && states[n].tasks[t].destroyed
    ensures t in states[m].tasks && states[m].tasks[t] == states[n].tasks[t]
    ensures forall i :: i in states[m].threads && states[m].threads[i].pc.InCallback() ==>
            states[m].threads[i].pc.snap.refs != t
    decreases m
  {
    hide Inv; hide Enabled; hide Step; hide Init;
    if n < m {
      QuietAfterDestroy(states, actions, n, m - 1, t);
      RunInv(states, actions, m - 1);
      DestroyedStays(states[m - 1], actions[m - 1], t);
    }
    RunInv(states, actions, m);
    NoCallback(states[m], t);
  }
}
