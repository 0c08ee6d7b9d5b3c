/** What every step of the download protocol keeps. Each part of the invariant names only the components it looks at. */
module P2PInvariant {
  import opened Bytes
  import opened P2PQueue
  import opened P2PProtocol

  type Tasks = map<nat, Task>
  type Accepted = set<(nat, Data)>

  // ----- workers -----

  predicate WasAccepted(accepted: Accepted, id: nat, response: Data)
  {
    (id, response) in accepted
  }

  ghost predicate HasAccepted(accepted: Accepted, id: nat)
  {
    exists d :: WasAccepted(accepted, id, d)
  }

  ghost predicate Assigned(taskId: nat, tasks: Tasks, task: nat, server: Server, refs: nat, unique: nat)
  {
    refs == task && 0 < task <= taskId && task in tasks && server in tasks[task].servers &&
      unique == |tasks[task].servers|
  }

  /** A worker that holds a handle: the element is of the worker's own task and was given to its server, which has not
      failed on it; a worker about to drop an element still has it queued, failed on every server. */
  ghost predicate HoldOk(q: Queue, tasks: Tasks, accepted: Accepted, pc: Pc)
    requires pc.Holds()
  {
    pc.id in q.elements && pc.snap.task in tasks &&
    var e := q.elements[pc.id];
    e.task == pc.snap.task && pc.snap.server in e.servers &&
    (pc.Flies() ==> pc.snap.server !in e.errors) &&
    (pc.Dropping? ==> pc.id in q.order && e.errors == tasks[pc.snap.task].servers) &&
    (pc.HasSeg() ==> pc.segment == e.segment) &&
    (pc.InCallback() ==> !tasks[pc.snap.task].destroyed) &&
    (pc.Removing? ==> HasAccepted(accepted, pc.id))
  }

  ghost predicate SnapOk(taskId: nat, tasks: Tasks, pc: Pc)
  {
    pc.HasSnap() ==> Assigned(taskId, tasks, pc.snap.task, pc.snap.server, pc.snap.refs, pc.snap.unique)
  }

  ghost predicate ThreadOk(q: Queue, tasks: Tasks, accepted: Accepted, th: Thread)
  {
    (if th.task == 0 then th.refs == 0 && th.pc == Parked(0)
      else Assigned(q.taskId, tasks, th.task, th.server, th.refs, th.unique)) &&
    SnapOk(q.taskId, tasks, th.pc) &&
    (th.pc.Holds() ==> HoldOk(q, tasks, accepted, th.pc))
  }

  ghost predicate ThreadsOk(threads: map<nat, Thread>, q: Queue, tasks: Tasks, accepted: Accepted)
  {
    forall i :: i in threads ==> ThreadOk(q, tasks, accepted, threads[i])
  }

  predicate Apart(a: Pc, b: Pc)
  {
    a.Holds() && b.Holds() && a.id == b.id ==> a.snap.server != b.snap.server && !(a.Dropping? && b.Dropping?)
  }

  /** Two workers never hold one element for the same server, nor both drop it. */
  ghost predicate PairsOk(threads: map<nat, Thread>)
  {
    forall i, j :: i in threads && j in threads && i != j ==> Apart(threads[i].pc, threads[j].pc)
  }

  // ----- elements -----

  predicate FliesOn(threads: map<nat, Thread>, i: nat, id: nat, server: Server)
  {
    i in threads && threads[i].pc.Flies() && threads[i].pc.id == id && threads[i].pc.snap.server == server
  }

  predicate DropsOn(threads: map<nat, Thread>, i: nat, id: nat)
  {
    i in threads && threads[i].pc.Dropping? && threads[i].pc.id == id
  }

  predicate Live(main: Main) { main.Adding? || main.Waiting? }

  /** The element is where its segment says, and its servers are servers of its task. */
  ghost predicate ElementShape(q: Queue, tasks: Tasks, id: nat)
    requires id in q.elements
  {
    var e := q.elements[id];
    0 < e.task <= q.taskId && e.task in tasks &&
    var t := tasks[e.task];
    e.errors <= e.servers <= t.servers && t.base <= id < t.base + |t.segments| && e.segment == t.segments[id - t.base]
  }

  ghost predicate ElementsOk(q: Queue, tasks: Tasks)
  {
    forall id :: id in q.elements ==> ElementShape(q, tasks, id)
  }

  /** Each server of an element has failed or is in flight; if all have failed, a worker is about to drop it. */
  ghost predicate Busy(threads: map<nat, Thread>, e: Element, all: set<Server>, id: nat)
  {
    (forall v :: v in e.servers && v !in e.errors ==> exists i :: FliesOn(threads, i, id, v)) &&
    (e.errors == all ==> exists i :: DropsOn(threads, i, id))
  }

  /** A queued element belongs to the running task. */
  ghost predicate OrderOk(q: Queue, tasks: Tasks, threads: map<nat, Thread>)
  {
    forall id :: id in q.order ==>
      id in q.elements && q.taskId in tasks && q.elements[id].task == q.taskId &&
      Busy(threads, q.elements[id], tasks[q.taskId].servers, id)
  }

  predicate FailedEverywhere(q: Queue, tasks: Tasks, id: nat)
  {
    id in q.elements && q.elements[id].task in tasks && q.elements[id].errors == tasks[q.elements[id].task].servers
  }

  /** An element that left the queue was answered, or had failed everywhere. */
  ghost predicate LeftOk(q: Queue, tasks: Tasks, accepted: Accepted)
  {
    forall id :: id in q.elements && id !in q.order ==> FailedEverywhere(q, tasks, id) || HasAccepted(accepted, id)
  }

  predicate Dropped(q: Queue, tasks: Tasks, id: nat)
  {
    FailedEverywhere(q, tasks, id) && q.elements[id].task == q.taskId && id !in q.order
  }

  /** The error flag of the running task: some element left the queue having failed on every server. */
  ghost predicate ErrorOk(q: Queue, tasks: Tasks)
  {
    if q.stopped then !q.error else q.error <==> exists id :: Dropped(q, tasks, id)
  }

  /** Every dispatch is recorded once. */
  ghost predicate DispatchOk(elements: map<nat, Element>, dispatched: seq<(nat, Server)>)
  {
    (forall i, j :: 0 <= i < j < |dispatched| ==> dispatched[i] != dispatched[j]) &&
    (forall id, v :: (id, v) in dispatched <==> id in elements && v in elements[id].servers)
  }

  /** All numbers below `next` are elements. */
  ghost predicate NumbersOk(q: Queue)
  {
    forall id :: id in q.elements <==> 0 <= id < q.next
  }

  // ----- tasks -----

  predicate Over(main: Main) { main.Between? || main.Destroyed? }

  ghost predicate TaskOk(task: Task, t: nat, taskId: nat, over: bool)
  {
    0 < t <= taskId && task.servers != {} && |task.answers| == |task.segments| &&
    (task.destroyed <==> t < taskId || over) &&
    (forall i :: 0 <= i < |task.segments| ==> task.segments[i].posInArray == i)
  }

  ghost predicate TasksOk(tasks: Tasks, taskId: nat, over: bool)
  {
    (taskId > 0 ==> taskId in tasks) && forall t :: t in tasks ==> TaskOk(tasks[t], t, taskId, over)
  }

  /** Elements of different tasks have different numbers. */
  ghost predicate RangesOk(tasks: Tasks)
  {
    forall t, u :: t in tasks && u in tasks && t < u ==> tasks[t].base + |tasks[t].segments| <= tasks[u].base
  }

  /** A slot holds an accepted response of its own element; an empty slot means that nothing but empty was accepted. */
  ghost predicate SlotOk(accepted: Accepted, id: nat, answer: Data)
  {
    (answer != [] ==> WasAccepted(accepted, id, answer)) &&
    (answer == [] ==> forall d :: WasAccepted(accepted, id, d) ==> d == [])
  }

  ghost predicate SlotsOk(tasks: Tasks, accepted: Accepted)
  {
    forall t, i :: t in tasks && 0 <= i < |tasks[t].answers| ==>
      SlotOk(accepted, tasks[t].base + i, tasks[t].answers[i])
  }

  ghost predicate AcceptedOk(elements: map<nat, Element>, tasks: Tasks, accepted: Accepted)
  {
    forall id, d :: WasAccepted(accepted, id, d) ==>
      id in elements && elements[id].task in tasks &&
      (tasks[elements[id].task].precise ==> |d| == elements[id].segment.toByte - elements[id].segment.fromByte)
  }

  // ----- the main thread -----

  predicate AssignedTo(threads: map<nat, Thread>, taskId: nat, i: nat, server: Server)
  {
    i in threads && threads[i].task == taskId && threads[i].server == server
  }

  ghost predicate PlanOkNow(s: State, plan: seq<(nat, Server)>)
    requires s.q.taskId in s.tasks
  {
    (forall i :: 0 <= i < |plan| ==>
       plan[i].0 in s.threads && s.threads[plan[i].0].task < s.q.taskId && plan[i].1 in Current(s).servers) &&
    (forall i, j :: 0 <= i < j < |plan| ==> plan[i].0 != plan[j].0)
  }

  ghost predicate MainOk(s: State)
  {
    (s.main.Between? <==> s.q.stopped) &&
    (!s.main.Between? ==> s.q.taskId in s.tasks) &&
    (!Live(s.main) ==> s.q.order == []) &&
    match s.main
    case Between => s.q.taskId in s.tasks ==> s.q.next == Current(s).base + |Current(s).segments|
    case Assigning(plan) => s.q.next == Current(s).base && PlanOkNow(s, plan)
    case Adding(c) => c <= |Current(s).segments| && s.q.next == Current(s).base + c
    case Waiting => s.q.next == Current(s).base + |Current(s).segments|
    case Read(e) => e == s.q.error && s.q.next == Current(s).base + |Current(s).segments|
    case Destroyed(e) => e == s.q.error && s.q.next == Current(s).base + |Current(s).segments|
  }

  predicate Planned(plan: seq<(nat, Server)>, k: nat, server: Server)
  {
    k < |plan| && plan[k].1 == server
  }

  /** Every server of the running task has a worker, or one is still to be assigned. */
  ghost predicate Covered(s: State, v: Server)
  {
    (exists i :: AssignedTo(s.threads, s.q.taskId, i, v)) ||
      (s.main.Assigning? && exists k :: Planned(s.main.plan, k, v))
  }

  ghost predicate CoverOk(s: State)
  {
    !s.main.Between? && s.q.taskId in s.tasks ==> forall v :: v in Current(s).servers ==> Covered(s, v)
  }

  // ----- the invariant -----

  /** The parts that do not look at the workers. */
  ghost predicate Rest(s: State)
  {
    ElementsOk(s.q, s.tasks) && LeftOk(s.q, s.tasks, s.accepted) && ErrorOk(s.q, s.tasks) &&
    DispatchOk(s.q.elements, s.dispatched) && NumbersOk(s.q) &&
    TasksOk(s.tasks, s.q.taskId, Over(s.main)) && RangesOk(s.tasks) &&
    SlotsOk(s.tasks, s.accepted) && AcceptedOk(s.q.elements, s.tasks, s.accepted)
  }

  ghost predicate Inv(s: State)
  {
    Rest(s) && ThreadsOk(s.threads, s.q, s.tasks, s.accepted) && PairsOk(s.threads) &&
    OrderOk(s.q, s.tasks, s.threads) && MainOk(s) && CoverOk(s)
  }

  lemma InitInv(s: State)
    requires Init(s)
    ensures Inv(s)
  {
  }

  // ----- a worker that only moves on -----

  lemma MoveThreads(s: State, tid: nat, pc: Pc)
    requires ThreadsOk(s.threads, s.q, s.tasks, s.accepted) && tid in s.threads
    requires ThreadOk(s.q, s.tasks, s.accepted, s.threads[tid].(pc := pc))
    ensures ThreadsOk(SetPc(s, tid, pc).threads, s.q, s.tasks, s.accepted)
  {
    hide ThreadOk;
  }

  /** The worker keeps its handle, or lets go of one that is no longer queued. */
  predicate SameGrip(order: seq<nat>, old_: Pc, pc: Pc)
  {
    !pc.Dropping? && !old_.Dropping? &&
    (pc.Holds() ==> old_.Holds() && pc.id == old_.id && pc.snap.server == old_.snap.server) &&
    (old_.Holds() && old_.id in order ==> pc.Holds())
  }

  lemma MoveBusy(s: State, tid: nat, pc: Pc, e: Element, all: set<Server>, id: nat)
    requires Busy(s.threads, e, all, id) && tid in s.threads
    requires s.threads[tid].pc.Holds() && s.threads[tid].pc.id == id ==> SameGrip([id], s.threads[tid].pc, pc)
    ensures Busy(SetPc(s, tid, pc).threads, e, all, id)
  {
    var now := SetPc(s, tid, pc).threads;
    forall v | v in e.servers && v !in e.errors ensures exists i :: FliesOn(now, i, id, v) {
      var i :| FliesOn(s.threads, i, id, v);
      assert FliesOn(now, i, id, v);
    }
    if e.errors == all {
      var i :| DropsOn(s.threads, i, id);
      assert DropsOn(now, i, id);
    }
  }

  lemma MoveOrder(s: State, tid: nat, pc: Pc)
    requires OrderOk(s.q, s.tasks, s.threads) && tid in s.threads && SameGrip(s.q.order, s.threads[tid].pc, pc)
    ensures OrderOk(s.q, s.tasks, SetPc(s, tid, pc).threads)
  {
    hide Busy;
    forall id | id in s.q.order
      ensures Busy(SetPc(s, tid, pc).threads, s.q.elements[id], s.tasks[s.q.taskId].servers, id)
    {
      MoveBusy(s, tid, pc, s.q.elements[id], s.tasks[s.q.taskId].servers, id);
    }
  }

  /** Neither assignments nor the plan look at where workers are. */
  lemma MoveMain(s: State, s': State)
    requires MainOk(s) && CoverOk(s)
    requires s'.main == s.main && s'.threads.Keys == s.threads.Keys && SameAssignments(s.threads, s'.threads)
    requires s'.q.taskId == s.q.taskId && s'.q.stopped == s.q.stopped && s'.q.next == s.q.next &&
             SameFrames(s.tasks, s'.tasks)
    requires (s'.q.error == s.q.error || Live(s.main)) && (s.q.order == [] ==> s'.q.order == [])
    ensures MainOk(s') && CoverOk(s')
  {
    hide MainOk; hide CoverOk;
    MoveMainOk(s, s');
    MoveCover(s, s');
  }

  ghost predicate SameAssignments(a: map<nat, Thread>, b: map<nat, Thread>)
  {
    forall i :: i in a && i in b ==> a[i].task == b[i].task && a[i].server == b[i].server
  }

  ghost predicate SameFrames(a: Tasks, b: Tasks)
  {
    a.Keys == b.Keys && forall t :: t in a ==> b[t] == a[t].(answers := b[t].answers, destroyed := b[t].destroyed)
  }

  lemma MoveMainOk(s: State, s': State)
    requires MainOk(s)
    requires s'.main == s.main && s'.threads.Keys == s.threads.Keys && SameAssignments(s.threads, s'.threads)
    requires s'.q.taskId == s.q.taskId && s'.q.stopped == s.q.stopped && s'.q.next == s.q.next &&
             SameFrames(s.tasks, s'.tasks)
    requires (s'.q.error == s.q.error || Live(s.main)) && (s.q.order == [] ==> s'.q.order == [])
    ensures MainOk(s')
  {
  }

  lemma MoveCover(s: State, s': State)
    requires CoverOk(s)
    requires s'.main == s.main && s'.threads.Keys == s.threads.Keys && SameAssignments(s.threads, s'.threads)
    requires s'.q.taskId == s.q.taskId && SameFrames(s.tasks, s'.tasks)
    ensures CoverOk(s')
  {
    hide Covered;
    if !s.main.Between? && s.q.taskId in s.tasks {
      forall v | v in Current(s').servers ensures Covered(s', v) {
        MoveCovered(s, s', v);
      }
    }
  }

  lemma MoveCovered(s: State, s': State, v: Server)
    requires Covered(s, v)
    requires s'.main == s.main && s'.threads.Keys == s.threads.Keys && SameAssignments(s.threads, s'.threads)
    requires s'.q.taskId == s.q.taskId
    ensures Covered(s', v)
  {
    if i :| AssignedTo(s.threads, s.q.taskId, i, v) { assert AssignedTo(s'.threads, s'.q.taskId, i, v); }
  }

  lemma MovePairs(s: State, tid: nat, pc: Pc)
    requires PairsOk(s.threads) && tid in s.threads && SameGrip(s.q.order, s.threads[tid].pc, pc)
    ensures PairsOk(SetPc(s, tid, pc).threads)
  {
  }

  lemma MoveInv(s: State, tid: nat, pc: Pc)
    requires Inv(s) && tid in s.threads
    requires ThreadOk(s.q, s.tasks, s.accepted, s.threads[tid].(pc := pc)) && SameGrip(s.q.order, s.threads[tid].pc, pc)
    ensures Inv(SetPc(s, tid, pc))
  {
    hide ThreadsOk; hide PairsOk; hide OrderOk; hide CoverOk; hide MainOk; hide ThreadOk; hide SameGrip;
    hide ElementsOk; hide LeftOk; hide ErrorOk; hide DispatchOk; hide NumbersOk; hide TasksOk; hide RangesOk;
    hide SlotsOk; hide AcceptedOk;
    MoveThreads(s, tid, pc);
    MovePairs(s, tid, pc);
    MoveOrder(s, tid, pc);
    MoveMain(s, SetPc(s, tid, pc));
  }
}
