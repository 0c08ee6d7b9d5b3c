/** Every action of the thread that runs the tasks keeps the invariant of the download protocol. */
module P2PMain {
  import opened Bytes
  import opened P2PQueue
  import opened P2PProtocol
  import opened P2PInvariant
  import opened P2PWorkers

  // ----- starting a task -----

  lemma StartRest(s: State, s': State, task: Task)
    requires Rest(s) && s.main.Between? && MainOk(s)
    requires task.servers != {} && task.base == s.q.next && !task.destroyed &&
             task.answers == seq(|task.segments|, _ => [])
    requires forall i :: 0 <= i < |task.segments| ==> task.segments[i].posInArray == i
    requires s' == SetTask(s, s.q.taskId + 1, task).(q := P2PQueue.Start(s.q, s.q.taskId + 1), main := s'.main) &&
             s'.main.Assigning?
    ensures Rest(s')
  {
    hide ElementsOk; hide LeftOk; hide ErrorOk; hide DispatchOk; hide NumbersOk; hide TasksOk; hide RangesOk;
    hide SlotsOk; hide AcceptedOk;
    NewTask(s);
    StartElements(s, s', task);
    StartLeft(s, s', task);
    StartTasks(s, s', task);
    StartSlots(s, s', task);
    StartAccepted(s, s', task);
    assert NumbersOk(s'.q) by { SameNumbers(s.q, s'.q); }
  }

  lemma SameNumbers(a: Queue, b: Queue)
    requires NumbersOk(a) && a.elements == b.elements && a.next == b.next
    ensures NumbersOk(b)
  {
  }

  lemma NewTask(s: State)
    requires TasksOk(s.tasks, s.q.taskId, Over(s.main))
    ensures s.q.taskId + 1 !in s.tasks
  {
  }

  lemma StartElements(s: State, s': State, task: Task)
    requires ElementsOk(s.q, s.tasks) && s.q.taskId + 1 !in s.tasks
    requires s'.tasks == s.tasks[s.q.taskId + 1 := task] && s'.q == P2PQueue.Start(s.q, s.q.taskId + 1)
    ensures ElementsOk(s'.q, s'.tasks)
  {
    forall x | x in s.q.elements ensures ElementShape(s'.q, s'.tasks, x) { assert ElementShape(s.q, s.tasks, x); }
  }

  lemma StartLeft(s: State, s': State, task: Task)
    requires LeftOk(s.q, s.tasks, s.accepted) && ElementsOk(s.q, s.tasks) && s.q.taskId + 1 !in s.tasks
    requires s'.tasks == s.tasks[s.q.taskId + 1 := task] && s'.q == P2PQueue.Start(s.q, s.q.taskId + 1)
    ensures LeftOk(s'.q, s'.tasks, s.accepted) && ErrorOk(s'.q, s'.tasks)
  {
    hide HasAccepted;
    forall x | x in s.q.elements
      ensures FailedEverywhere(s'.q, s'.tasks, x) == FailedEverywhere(s.q, s.tasks, x) && !Dropped(s'.q, s'.tasks, x)
    {
      assert ElementShape(s.q, s.tasks, x);
    }
  }

  lemma StartTasks(s: State, s': State, task: Task)
    requires TasksOk(s.tasks, s.q.taskId, Over(s.main)) && RangesOk(s.tasks) && s.q.taskId + 1 !in s.tasks
    requires MainOk(s) && s.main.Between? && s'.main.Assigning?
    requires task.servers != {} && task.base == s.q.next && !task.destroyed && |task.answers| == |task.segments|
    requires forall i :: 0 <= i < |task.segments| ==> task.segments[i].posInArray == i
    requires s'.tasks == s.tasks[s.q.taskId + 1 := task] && s'.q == P2PQueue.Start(s.q, s.q.taskId + 1)
    ensures TasksOk(s'.tasks, s'.q.taskId, Over(s'.main)) && RangesOk(s'.tasks)
  {
    forall t | t in s'.tasks ensures TaskOk(s'.tasks[t], t, s'.q.taskId, Over(s'.main)) {
      if t in s.tasks { assert TaskOk(s.tasks[t], t, s.q.taskId, Over(s.main)); }
    }
    forall t | t in s.tasks ensures s.tasks[t].base + |s.tasks[t].segments| <= s.q.next {
      assert TaskOk(s.tasks[t], t, s.q.taskId, Over(s.main));
    }
  }

  lemma StartSlots(s: State, s': State, task: Task)
    requires SlotsOk(s.tasks, s.accepted) && AcceptedOk(s.q.elements, s.tasks, s.accepted) && NumbersOk(s.q)
    requires task.base == s.q.next && task.answers == seq(|task.segments|, _ => [])
    requires s'.tasks == s.tasks[s.q.taskId + 1 := task]
    ensures SlotsOk(s'.tasks, s.accepted)
  {
    forall t, i | t in s'.tasks && 0 <= i < |s'.tasks[t].answers|
      ensures SlotOk(s.accepted, s'.tasks[t].base + i, s'.tasks[t].answers[i])
    {
      if t != s.q.taskId + 1 { assert SlotOk(s.accepted, s.tasks[t].base + i, s.tasks[t].answers[i]); }
    }
  }

  lemma StartAccepted(s: State, s': State, task: Task)
    requires AcceptedOk(s.q.elements, s.tasks, s.accepted) && s.q.taskId + 1 !in s.tasks
    requires s'.tasks == s.tasks[s.q.taskId + 1 := task]
    ensures AcceptedOk(s.q.elements, s'.tasks, s.accepted)
  {
  }

  lemma StartThreads(s: State, s': State, task: Task)
    requires ThreadsOk(s.threads, s.q, s.tasks, s.accepted) && s.q.taskId + 1 !in s.tasks
    requires s'.tasks == s.tasks[s.q.taskId + 1 := task] && s'.q == P2PQueue.Start(s.q, s.q.taskId + 1)
    ensures ThreadsOk(s.threads, s'.q, s'.tasks, s.accepted)
    ensures forall i :: i in s.threads ==> s.threads[i].task <= s.q.taskId
  {
    hide HasAccepted;
    forall i | i in s.threads
      ensures ThreadOk(s'.q, s'.tasks, s.accepted, s.threads[i]) && s.threads[i].task <= s.q.taskId
    {
      assert ThreadOk(s.q, s.tasks, s.accepted, s.threads[i]);
    }
  }

  lemma StartMain(s: State, s': State, plan: seq<(nat, Server)>, task: Task)
    requires MainOk(s) && s.main.Between? && plan != [] && s'.main == Assigning(plan) && s'.threads == s.threads
    requires PlanOk(s, task.segments, plan) && task.servers == PlanServers(plan) && task.base == s.q.next
    requires s'.tasks == s.tasks[s.q.taskId + 1 := task] && s'.q == P2PQueue.Start(s.q, s.q.taskId + 1)
    requires forall i :: i in s.threads ==> s.threads[i].task <= s.q.taskId
    ensures MainOk(s') && CoverOk(s')
  {
    forall v | v in task.servers ensures Covered(s', v) {
      var k :| 0 <= k < |plan| && plan[k].1 == v;
      assert Planned(plan, k, v);
    }
  }

  lemma StartTaskStep(s: State, a: Action)
    requires Inv(s) && Enabled(s, a) && a.StartTask?
    ensures Inv(Step(s, a))
  {
    hide ElementsOk; hide LeftOk; hide ErrorOk; hide DispatchOk; hide NumbersOk; hide TasksOk; hide RangesOk;
    hide SlotsOk; hide AcceptedOk;
    hide CoverOk; hide ThreadsOk; hide PlanOkNow; hide Rest;
    var s' := Step(s, a);
    var task := Task(a.segments, PlanServers(a.plan), a.precise, s.q.next, false, seq(|a.segments|, _ => []));
    assert a.plan[0].1 in task.servers;
    StartRest(s, s', task);
    assert s.q.taskId + 1 !in s.tasks by { RestTasks(s); NewTask(s); }
    StartThreads(s, s', task);
    StartMain(s, s', a.plan, task);
  }

  lemma RestTasks(s: State)
    requires Rest(s)
    ensures TasksOk(s.tasks, s.q.taskId, Over(s.main))
  {
    hide TasksOk;
  }

  // ----- handing the task to workers -----

  lemma AssignThreads(s: State, tid: nat, server: Server)
    requires ThreadsOk(s.threads, s.q, s.tasks, s.accepted) && tid in s.threads && s.q.taskId in s.tasks &&
             s.q.taskId > 0
    requires server in Current(s).servers
    ensures ThreadsOk(s.threads[tid := s.threads[tid].(task := s.q.taskId, server := server, refs := s.q.taskId,
            unique := |Current(s).servers|)],
                      s.q, s.tasks, s.accepted)
  {
    hide HoldOk;
    assert ThreadOk(s.q, s.tasks, s.accepted, s.threads[tid]);
  }

  lemma SamePcs(a: map<nat, Thread>, b: map<nat, Thread>, q: Queue, tasks: Tasks)
    requires a.Keys == b.Keys && (forall i :: i in a ==> a[i].pc == b[i].pc)
    requires PairsOk(a) && OrderOk(q, tasks, a)
    ensures PairsOk(b) && OrderOk(q, tasks, b)
  {
    forall id | id in q.order ensures Busy(b, q.elements[id], tasks[q.taskId].servers, id) {
      assert Busy(a, q.elements[id], tasks[q.taskId].servers, id);
      forall i, v | FliesOn(a, i, id, v) ensures FliesOn(b, i, id, v) { }
      forall i | DropsOn(a, i, id) ensures DropsOn(b, i, id) { }
    }
  }

  lemma AssignCovered(s: State, s': State, v: Server)
    requires Covered(s, v) && s.main.Assigning? && s.main.plan != [] && s'.main == Assigning(s.main.plan[1..])
    requires s.main.plan[0].0 in s.threads && s.threads[s.main.plan[0].0].task < s.q.taskId && s'.q == s.q
    requires var (tid, server) := s.main.plan[0];
             tid in s'.threads && s'.threads == s.threads[tid := s'.threads[tid]] &&
               s'.threads[tid].task == s.q.taskId && s'.threads[tid].server == server
    ensures Covered(s', v)
  {
    var plan := s.main.plan;
    if i :| AssignedTo(s.threads, s.q.taskId, i, v) {
      assert AssignedTo(s'.threads, s'.q.taskId, i, v);
    } else {
      var k: nat :| Planned(plan, k, v);
      if k == 0 {
        assert AssignedTo(s'.threads, s'.q.taskId, plan[0].0, v);
      } else {
        assert Planned(plan[1..], k - 1, v);
      }
    }
  }

  lemma AssignMain(s: State, s': State)
    requires MainOk(s) && CoverOk(s) && s.main.Assigning? && s.main.plan != [] && s'.main == Assigning(s.main.plan[1..])
    requires s.main.plan[0].0 in s.threads && s'.q == s.q && s'.tasks == s.tasks
    requires var (tid, server) := s.main.plan[0];
             tid in s'.threads && s'.threads == s.threads[tid := s'.threads[tid]] &&
               s'.threads[tid].task == s.q.taskId && s'.threads[tid].server == server
    ensures MainOk(s') && CoverOk(s')
  {
    hide Covered;
    forall v | v in Current(s).servers ensures Covered(s', v) { AssignCovered(s, s', v); }
  }

  lemma AssignStep(s: State, a: Action)
    requires Inv(s) && Enabled(s, a) && a.Assign?
    ensures Inv(Step(s, a))
  {
    hide ElementsOk; hide LeftOk; hide ErrorOk; hide DispatchOk; hide NumbersOk; hide RangesOk; hide SlotsOk;
    hide AcceptedOk;
    hide CoverOk; hide ThreadsOk; hide PairsOk; hide OrderOk;
    var s' := Step(s, a);
    assert TaskOk(Current(s), s.q.taskId, s.q.taskId, Over(s.main));
    hide TasksOk;
    var (tid, server) := s.main.plan[0];
    AssignThreads(s, tid, server);
    SamePcs(s.threads, s'.threads, s.q, s.tasks);
    AssignMain(s, s');
  }

  // ----- queueing segments -----

  lemma AddThreads(s: State, segment: Segment)
    requires ThreadsOk(s.threads, s.q, s.tasks, s.accepted) && s.q.next !in s.q.elements
    ensures ThreadsOk(s.threads, Add(s.q, segment), s.tasks, s.accepted)
  {
    hide Assigned; hide HasAccepted;
    forall i | i in s.threads ensures ThreadOk(Add(s.q, segment), s.tasks, s.accepted, s.threads[i]) {
      assert ThreadOk(s.q, s.tasks, s.accepted, s.threads[i]);
    }
  }

  lemma AddRest(s: State, segment: Segment)
    requires Rest(s) && s.q.taskId in s.tasks && !s.q.stopped
    requires var t := s.tasks[s.q.taskId];
             t.base <= s.q.next < t.base + |t.segments| && segment == t.segments[s.q.next - t.base]
    ensures Rest(s.(q := Add(s.q, segment)))
    ensures s.q.next !in s.q.elements
  {
    hide LeftOk; hide ErrorOk; hide RangesOk; hide SlotsOk; hide DispatchOk; hide AcceptedOk; hide ElementsOk;
    assert s.q.next !in s.q.elements;
    assert NumbersOk(Add(s.q, segment));
    assert TaskOk(s.tasks[s.q.taskId], s.q.taskId, s.q.taskId, Over(s.main));
    hide NumbersOk; hide TasksOk;
    AddElements(s, segment);
    AddLeft(s, segment);
    AddDispatch(s, segment);
    AddAccepted(s, segment);
  }

  lemma AddElements(s: State, segment: Segment)
    requires ElementsOk(s.q, s.tasks) && s.q.taskId in s.tasks && s.q.taskId > 0
    requires var t := s.tasks[s.q.taskId];
             t.base <= s.q.next < t.base + |t.segments| && segment == t.segments[s.q.next - t.base]
    ensures ElementsOk(Add(s.q, segment), s.tasks)
  {
    var q' := Add(s.q, segment);
    forall x | x in q'.elements ensures ElementShape(q', s.tasks, x) {
      if x != s.q.next { assert ElementShape(s.q, s.tasks, x); }
    }
  }

  lemma AddLeft(s: State, segment: Segment)
    requires LeftOk(s.q, s.tasks, s.accepted) && ErrorOk(s.q, s.tasks) && s.q.next !in s.q.elements && !s.q.stopped
    ensures LeftOk(Add(s.q, segment), s.tasks, s.accepted) && ErrorOk(Add(s.q, segment), s.tasks)
  {
    hide HasAccepted;
    var q' := Add(s.q, segment);
    assert s.q.next in q'.order;
    forall x | x != s.q.next
      ensures FailedEverywhere(q', s.tasks, x) == FailedEverywhere(s.q, s.tasks, x) &&
              Dropped(q', s.tasks, x) == Dropped(s.q, s.tasks, x) { }
  }

  lemma AddDispatch(s: State, segment: Segment)
    requires DispatchOk(s.q.elements, s.dispatched) && s.q.next !in s.q.elements
    ensures DispatchOk(Add(s.q, segment).elements, s.dispatched)
  {
  }

  lemma AddAccepted(s: State, segment: Segment)
    requires AcceptedOk(s.q.elements, s.tasks, s.accepted) && s.q.next !in s.q.elements
    ensures AcceptedOk(Add(s.q, segment).elements, s.tasks, s.accepted)
  {
  }

  lemma AddOrder(s: State, segment: Segment)
    requires OrderOk(s.q, s.tasks, s.threads) && s.q.next !in s.q.elements && s.q.taskId in s.tasks &&
             s.tasks[s.q.taskId].servers != {}
    ensures OrderOk(Add(s.q, segment), s.tasks, s.threads)
  {
    var q' := Add(s.q, segment);
    assert Busy(s.threads, Element(s.q.taskId, segment, {}, {}), s.tasks[s.q.taskId].servers, s.q.next);
    hide Busy;
    forall x | x in q'.order ensures x == s.q.next || x in s.q.order { }
  }

  lemma AddSegmentStep(s: State, a: Action)
    requires Inv(s) && Enabled(s, a) && a.AddSegment?
    ensures Inv(Step(s, a))
  {
    hide ElementsOk; hide LeftOk; hide ErrorOk; hide DispatchOk; hide NumbersOk; hide RangesOk; hide SlotsOk;
    hide AcceptedOk;
    hide ThreadsOk; hide PairsOk; hide OrderOk; hide Covered;
    var s' := Step(s, a);
    assert TaskOk(Current(s), s.q.taskId, s.q.taskId, Over(s.main));
    hide TasksOk;
    var segment := Current(s).segments[s.main.count];
    AddRest(s, segment);
    AddThreads(s, segment);
    AddOrder(s, segment);
    forall v | Covered(s, v) ensures Covered(s', v) { SameCovered(s, s', v); }
  }

  /** A server keeps its worker once the plan is worked off. */
  lemma SameCovered(s: State, s': State, v: Server)
    requires Covered(s, v) && s'.threads == s.threads && s'.q.taskId == s.q.taskId
    requires s.main.Assigning? ==> s.main.plan == []
    ensures Covered(s', v)
  {
    if i :| AssignedTo(s.threads, s.q.taskId, i, v) { assert AssignedTo(s'.threads, s'.q.taskId, i, v); }
  }

  // ----- the other actions of the main thread -----

  lemma TurnStep(s: State, a: Action)
    requires Inv(s) && Enabled(s, a) && (a.PlanDone? || a.AllAdded? || a.WaitDone?)
    ensures Inv(Step(s, a))
  {
    hide ElementsOk; hide LeftOk; hide ErrorOk; hide DispatchOk; hide NumbersOk; hide RangesOk; hide SlotsOk;
    hide AcceptedOk;
    hide ThreadsOk; hide PairsOk; hide OrderOk; hide Covered; hide TasksOk;
    var s' := Step(s, a);
    forall v | Covered(s, v) ensures Covered(s', v) { SameCovered(s, s', v); }
  }

  lemma DestroyThreads(s: State, task': Task)
    requires ThreadsOk(s.threads, s.q, s.tasks, s.accepted) && s.q.taskId in s.tasks &&
             task' == Current(s).(destroyed := true)
    requires forall i :: i in s.threads && s.threads[i].pc.InCallback() ==> s.threads[i].pc.snap.refs != s.q.taskId
    ensures ThreadsOk(s.threads, s.q, s.tasks[s.q.taskId := task'], s.accepted)
  {
    hide HasAccepted;
    forall i | i in s.threads ensures ThreadOk(s.q, s.tasks[s.q.taskId := task'], s.accepted, s.threads[i]) {
      assert ThreadOk(s.q, s.tasks, s.accepted, s.threads[i]);
    }
  }

  lemma DestroyLeft(s: State, task': Task)
    requires LeftOk(s.q, s.tasks, s.accepted) && ErrorOk(s.q, s.tasks) && s.q.taskId in s.tasks &&
             task' == Current(s).(destroyed := true)
    ensures LeftOk(s.q, s.tasks[s.q.taskId := task'], s.accepted) && ErrorOk(s.q, s.tasks[s.q.taskId := task'])
  {
    hide HasAccepted;
    var tasks' := s.tasks[s.q.taskId := task'];
    forall x ensures FailedEverywhere(s.q, tasks', x) == FailedEverywhere(s.q, s.tasks, x) &&
                     Dropped(s.q, tasks', x) == Dropped(s.q, s.tasks, x) { }
  }

  lemma DestroyElements(s: State, task': Task)
    requires ElementsOk(s.q, s.tasks) && RangesOk(s.tasks) && s.q.taskId in s.tasks &&
             task' == Current(s).(destroyed := true)
    requires SlotsOk(s.tasks, s.accepted) && AcceptedOk(s.q.elements, s.tasks, s.accepted)
    ensures ElementsOk(s.q, s.tasks[s.q.taskId := task']) && RangesOk(s.tasks[s.q.taskId := task'])
    ensures SlotsOk(s.tasks[s.q.taskId := task'], s.accepted) &&
            AcceptedOk(s.q.elements, s.tasks[s.q.taskId := task'], s.accepted)
  {
    hide SlotOk;
    var tasks' := s.tasks[s.q.taskId := task'];
    forall x | x in s.q.elements ensures ElementShape(s.q, tasks', x) { assert ElementShape(s.q, s.tasks, x); }
  }

  lemma DestroyTasks(s: State, task': Task)
    requires TasksOk(s.tasks, s.q.taskId, false) && s.q.taskId in s.tasks && task' == Current(s).(destroyed := true)
    ensures TasksOk(s.tasks[s.q.taskId := task'], s.q.taskId, true)
  {
    forall t | t in s.tasks ensures t == s.q.taskId || TaskOk(s.tasks[t], t, s.q.taskId, true) {
      assert TaskOk(s.tasks[t], t, s.q.taskId, false);
    }
  }

  lemma DestroyStep(s: State, a: Action)
    requires Inv(s) && Enabled(s, a) && a.Destroy?
    ensures Inv(Step(s, a))
  {
    hide ElementsOk; hide LeftOk; hide ErrorOk; hide DispatchOk; hide NumbersOk; hide RangesOk; hide SlotsOk;
    hide AcceptedOk;
    hide ThreadsOk; hide PairsOk; hide Covered; hide TasksOk; hide Busy;
    var s' := Step(s, a);
    var task' := Current(s).(destroyed := true);
    DestroyThreads(s, task');
    DestroyLeft(s, task');
    DestroyElements(s, task');
    DestroyTasks(s, task');
    forall v | Covered(s, v) ensures Covered(s', v) { SameCovered(s, s', v); }
  }

  lemma StopRest(s: State)
    requires Rest(s) && s.main.Destroyed? && s.q.taskId in s.tasks
    ensures Rest(s.(q := P2PQueue.Stop(s.q), main := Between))
  {
    hide DispatchOk; hide RangesOk; hide SlotsOk; hide AcceptedOk; hide TasksOk; hide HasAccepted;
    var q' := P2PQueue.Stop(s.q);
    assert ElementsOk(q', s.tasks) by {
      forall x | x in s.q.elements ensures ElementShape(q', s.tasks, x) { assert ElementShape(s.q, s.tasks, x); }
    }
    forall x ensures FailedEverywhere(q', s.tasks, x) == FailedEverywhere(s.q, s.tasks, x) { }
  }

  lemma StopThreads(s: State)
    requires ThreadsOk(s.threads, s.q, s.tasks, s.accepted)
    ensures ThreadsOk(s.threads, P2PQueue.Stop(s.q), s.tasks, s.accepted)
  {
    hide HasAccepted; hide Assigned;
    forall i | i in s.threads ensures ThreadOk(P2PQueue.Stop(s.q), s.tasks, s.accepted, s.threads[i]) {
      assert ThreadOk(s.q, s.tasks, s.accepted, s.threads[i]);
    }
  }

  lemma StopStep(s: State, a: Action)
    requires Inv(s) && Enabled(s, a) && a.StopQueue?
    ensures Inv(Step(s, a))
  {
    hide Rest; hide ThreadsOk; hide PairsOk; hide Covered; hide Busy;
    StopRest(s);
    StopThreads(s);
  }
}
