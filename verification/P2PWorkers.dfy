/** Every action of a worker thread keeps the invariant of the download protocol. */
module P2PWorkers {
  import opened Bytes
  import opened P2PQueue
  import opened P2PProtocol
  import opened P2PInvariant

  // ----- actions that only move the worker -----

  predicate Moves(s: State, a: Action)
    requires Enabled(s, a)
  {
    a.TakeSnapshot? || a.GetClosed? || a.GetSegment? || a.BeginBuild? || a.EndBuild? || a.Respond? || a.BeginParse? ||
    (a.EndParse? && var pc := s.threads[a.tid].pc; !Acceptable(s.tasks[pc.snap.refs], pc.segment, a.response, a.error))
  }

  /** A queued element belongs to a task whose callbacks are not destroyed. */
  lemma QueuedAlive(s: State, id: nat)
    requires Inv(s) && id in s.q.order
    ensures id in s.q.elements && s.q.elements[id].task == s.q.taskId && s.q.taskId in s.tasks &&
            !s.tasks[s.q.taskId].destroyed
  {
    hide ThreadsOk; hide PairsOk; hide CoverOk; hide ElementsOk; hide LeftOk; hide ErrorOk; hide DispatchOk;
    hide NumbersOk;
    hide RangesOk; hide SlotsOk; hide AcceptedOk; hide Busy; hide PlanOkNow;
  }

  lemma MoveStep(s: State, a: Action)
    requires Inv(s) && Enabled(s, a) && Moves(s, a)
    ensures Inv(Step(s, a))
  {
    hide Inv; hide Acceptable; hide HasAccepted;
    var tid, th := a.tid, s.threads[a.tid];
    var pc := Step(s, a).threads[tid].pc;
    assert Step(s, a) == SetPc(s, tid, pc);
    OwnThread(s, tid);
    if th.pc.Holds() && th.pc.id in s.q.order { QueuedAlive(s, th.pc.id); }
    assert SameGrip(s.q.order, th.pc, pc);
    MoveInv(s, tid, pc);
  }

  lemma OwnThread(s: State, tid: nat)
    requires Inv(s) && tid in s.threads
    ensures ThreadOk(s.q, s.tasks, s.accepted, s.threads[tid])
  {
    hide ThreadOk;
  }

  // ----- taking an element -----

  lemma GiveThreads(s: State, id: nat, server: Server, q': Queue)
    requires ThreadsOk(s.threads, s.q, s.tasks, s.accepted) && id in s.q.elements
    requires q' == s.q.(order := q'.order, elements :=
             s.q.elements[id := s.q.elements[id].(servers := s.q.elements[id].servers + {server})])
    requires forall x :: x in q'.order <==> x in s.q.order
    ensures ThreadsOk(s.threads, q', s.tasks, s.accepted)
  {
    hide Assigned; hide HasAccepted;
    forall i | i in s.threads ensures ThreadOk(q', s.tasks, s.accepted, s.threads[i]) {
      assert ThreadOk(s.q, s.tasks, s.accepted, s.threads[i]);
    }
  }

  lemma GiveRest(s: State, id: nat, server: Server, q': Queue)
    requires Rest(s) && id in s.q.elements && server !in s.q.elements[id].servers
    requires s.q.elements[id].task in s.tasks && server in s.tasks[s.q.elements[id].task].servers
    requires q' == s.q.(order := q'.order, elements :=
             s.q.elements[id := s.q.elements[id].(servers := s.q.elements[id].servers + {server})])
    requires forall x :: x in q'.order <==> x in s.q.order
    ensures Rest(s.(q := q', dispatched := s.dispatched + [(id, server)]))
  {
    hide RangesOk; hide SlotsOk; hide TasksOk;
    GiveDispatch(s.q.elements, s.dispatched, id, server);
    hide DispatchOk; hide HasAccepted;
    assert ElementsOk(q', s.tasks) by {
      forall x | x in q'.elements ensures ElementShape(q', s.tasks, x) { assert ElementShape(s.q, s.tasks, x); }
    }
    hide ElementsOk;
    forall x ensures FailedEverywhere(q', s.tasks, x) == FailedEverywhere(s.q, s.tasks, x) &&
                     Dropped(q', s.tasks, x) == Dropped(s.q, s.tasks, x) { }
  }

  lemma GiveDispatch(elements: map<nat, Element>, dispatched: seq<(nat, Server)>, id: nat, server: Server)
    requires DispatchOk(elements, dispatched) && id in elements && server !in elements[id].servers
    ensures DispatchOk(elements[id := elements[id].(servers := elements[id].servers + {server})],
            dispatched + [(id, server)])
  {
    assert (id, server) !in dispatched;
  }

  lemma GivePairs(s: State, tid: nat, pc: Pc)
    requires ThreadsOk(s.threads, s.q, s.tasks, s.accepted) && PairsOk(s.threads)
    requires tid in s.threads && pc.Given? && pc.id in s.q.elements && pc.snap.server !in s.q.elements[pc.id].servers
    ensures PairsOk(SetPc(s, tid, pc).threads)
  {
    hide Assigned; hide HasAccepted;
    forall i | i in s.threads && i != tid ensures Apart(s.threads[i].pc, pc) && Apart(pc, s.threads[i].pc) {
      assert ThreadOk(s.q, s.tasks, s.accepted, s.threads[i]);
    }
  }

  lemma GiveBusy(s: State, tid: nat, pc: Pc, e: Element, all: set<Server>, id: nat)
    requires Busy(s.threads, e, all, id) && tid in s.threads && pc.Given? && !s.threads[tid].pc.Holds()
    ensures Busy(SetPc(s, tid, pc).threads, e, all, id)
    ensures pc.id == id ==> Busy(SetPc(s, tid, pc).threads, e.(servers := e.servers + {pc.snap.server}), all, id)
  {
    MoveBusy(s, tid, pc, e, all, id);
    assert pc.id == id ==> FliesOn(SetPc(s, tid, pc).threads, tid, id, pc.snap.server);
  }

  lemma GiveOrder(s: State, tid: nat, pc: Pc, q': Queue)
    requires OrderOk(s.q, s.tasks, s.threads) && tid in s.threads && pc.Given? && !s.threads[tid].pc.Holds() &&
             pc.id in s.q.order
    requires q' == s.q.(order := q'.order, elements :=
             s.q.elements[pc.id := s.q.elements[pc.id].(servers := s.q.elements[pc.id].servers + {pc.snap.server})])
    requires forall x :: x in q'.order <==> x in s.q.order
    ensures OrderOk(q', s.tasks, SetPc(s, tid, pc).threads)
  {
    hide Busy;
    forall id | id in q'.order
      ensures Busy(SetPc(s, tid, pc).threads, q'.elements[id], s.tasks[s.q.taskId].servers, id)
    {
      GiveBusy(s, tid, pc, s.q.elements[id], s.tasks[s.q.taskId].servers, id);
    }
  }

  lemma GetElementStep(s: State, a: Action)
    requires Inv(s) && Enabled(s, a) && a.GetElement?
    ensures Inv(Step(s, a))
  {
    hide ElementsOk; hide LeftOk; hide ErrorOk; hide DispatchOk; hide NumbersOk; hide TasksOk; hide RangesOk;
    hide SlotsOk; hide AcceptedOk;
    hide CoverOk; hide MainOk; hide PairsOk; hide ThreadsOk; hide OrderOk;
    hide Rest;
    var tid, th := a.tid, s.threads[a.tid];
    var i := LastFree(s.q, s.q.order, th.pc.snap.server);
    var id, server := s.q.order[i], th.pc.snap.server;
    assert id in s.q.order;
    OwnThread(s, tid);
    QueuedAlive(s, id);
    ElementShaped(s, id);
    var pc := Given(th.pc.snap, id);
    var q' := Give(s.q, i, server);
    GiveRest(s, id, server, q');
    GivePairs(s, tid, pc);
    GiveOrder(s, tid, pc, q');
    GiveThreads(s, id, server, q');
    var mid := s.(q := q', dispatched := s.dispatched + [(id, server)]);
    var s' := SetPc(mid, tid, pc);
    assert s' == Step(s, a);
    assert ThreadOk(q', s.tasks, s.accepted, th.(pc := pc));
    MoveThreads(mid, tid, pc);
    SamePlaces(mid, tid, pc);
    MoveMain(s, s');
  }

  lemma ElementShaped(s: State, id: nat)
    requires Inv(s) && id in s.q.elements
    ensures ElementShape(s.q, s.tasks, id)
  {
    hide ElementShape;
  }

  /** Moving a worker leaves assignments and everything else alone. */
  lemma SamePlaces(s: State, tid: nat, pc: Pc)
    requires tid in s.threads
    ensures SetPc(s, tid, pc).threads.Keys == s.threads.Keys && SameAssignments(s.threads, SetPc(s, tid, pc).threads)
    ensures Rest(s) ==> Rest(SetPc(s, tid, pc))
  {
    hide ElementsOk; hide LeftOk; hide ErrorOk; hide DispatchOk; hide NumbersOk; hide TasksOk; hide RangesOk;
    hide SlotsOk; hide AcceptedOk;
  }

  // ----- removing an element -----

  /** Only the removed element may have been about to be dropped. */
  lemma RemoveThreads(s: State, tid: nat, id: nat, q': Queue)
    requires ThreadsOk(s.threads, s.q, s.tasks, s.accepted) && tid in s.threads
    requires q' == s.q.(order := Without(s.q.order, id), error := q'.error)
    requires forall i :: i in s.threads && i != tid ==> !DropsOn(s.threads, i, id)
    requires ThreadOk(q', s.tasks, s.accepted, s.threads[tid].(pc := Looping))
    ensures ThreadsOk(SetPc(s, tid, Looping).threads, q', s.tasks, s.accepted)
  {
    hide Assigned; hide HasAccepted;
    forall i | i in s.threads && i != tid ensures ThreadOk(q', s.tasks, s.accepted, s.threads[i]) {
      assert ThreadOk(s.q, s.tasks, s.accepted, s.threads[i]);
      assert !DropsOn(s.threads, i, id);
    }
  }

  lemma RemoveOrder(s: State, tid: nat, id: nat, q': Queue)
    requires OrderOk(s.q, s.tasks, s.threads) && tid in s.threads && s.threads[tid].pc.Holds() &&
             s.threads[tid].pc.id == id
    requires q' == s.q.(order := Without(s.q.order, id), error := q'.error)
    ensures OrderOk(q', s.tasks, SetPc(s, tid, Looping).threads)
  {
    hide Busy;
    forall x | x in q'.order
      ensures Busy(SetPc(s, tid, Looping).threads, q'.elements[x], s.tasks[s.q.taskId].servers, x)
    {
      MoveBusy(s, tid, Looping, s.q.elements[x], s.tasks[s.q.taskId].servers, x);
    }
  }

  lemma LoopPairs(s: State, tid: nat)
    requires PairsOk(s.threads) && tid in s.threads
    ensures PairsOk(SetPc(s, tid, Looping).threads)
  {
  }

  lemma LoopThread(q: Queue, tasks: Tasks, accepted: Accepted, th: Thread, q': Queue)
    requires ThreadOk(q, tasks, accepted, th) && th.pc.HasSnap() && q'.taskId == q.taskId
    ensures ThreadOk(q', tasks, accepted, th.(pc := Looping))
  {
  }

  /** An element that its server still works on has not failed everywhere, and nobody is dropping it. */
  lemma FlyingNotFailed(s: State, tid: nat)
    requires Inv(s) && tid in s.threads && s.threads[tid].pc.Flies()
    ensures !FailedEverywhere(s.q, s.tasks, s.threads[tid].pc.id)
    ensures forall i :: i in s.threads ==> !DropsOn(s.threads, i, s.threads[tid].pc.id)
  {
    hide ElementsOk; hide LeftOk; hide ErrorOk; hide DispatchOk; hide NumbersOk; hide TasksOk; hide RangesOk;
    hide SlotsOk; hide AcceptedOk;
    hide CoverOk; hide MainOk; hide PairsOk; hide OrderOk; hide HasAccepted;
    assert ThreadOk(s.q, s.tasks, s.accepted, s.threads[tid]);
    forall i | i in s.threads ensures !DropsOn(s.threads, i, s.threads[tid].pc.id) {
      assert ThreadOk(s.q, s.tasks, s.accepted, s.threads[i]);
    }
  }

  lemma RemoveRest(s: State, id: nat)
    requires Rest(s) && HasAccepted(s.accepted, id) && !FailedEverywhere(s.q, s.tasks, id)
    ensures Rest(s.(q := Remove(s.q, id)))
  {
    hide RangesOk; hide SlotsOk; hide TasksOk; hide DispatchOk; hide HasAccepted; hide AcceptedOk;
    var q' := Remove(s.q, id);
    assert ElementsOk(q', s.tasks) by {
      forall x | x in q'.elements ensures ElementShape(q', s.tasks, x) { assert ElementShape(s.q, s.tasks, x); }
    }
    hide ElementsOk;
    forall x ensures FailedEverywhere(q', s.tasks, x) == FailedEverywhere(s.q, s.tasks, x) &&
                     Dropped(q', s.tasks, x) == Dropped(s.q, s.tasks, x) { }
  }

  lemma RemoveElementStep(s: State, a: Action)
    requires Inv(s) && Enabled(s, a) && a.RemoveStep?
    ensures Inv(Step(s, a))
  {
    hide ElementsOk; hide LeftOk; hide ErrorOk; hide DispatchOk; hide NumbersOk; hide TasksOk; hide RangesOk;
    hide SlotsOk; hide AcceptedOk;
    hide CoverOk; hide MainOk; hide PairsOk; hide ThreadsOk; hide OrderOk; hide Rest; hide Assigned; hide HasAccepted;
    hide FailedEverywhere;
    var tid, th := a.tid, s.threads[a.tid];
    var id := th.pc.id;
    var q' := Remove(s.q, id);
    OwnThread(s, tid);
    FlyingNotFailed(s, tid);
    LoopThread(s.q, s.tasks, s.accepted, th, q');
    RemoveRest(s, id);
    RemoveThreads(s, tid, id, q');
    RemoveOrder(s, tid, id, q');
    LoopPairs(s, tid);
    SamePlaces(s.(q := q'), tid, Looping);
    MoveMain(s, Step(s, a));
  }

  lemma DropRest(s: State, id: nat)
    requires Rest(s) && FailedEverywhere(s.q, s.tasks, id) && s.q.elements[id].task == s.q.taskId && !s.q.stopped
    ensures Rest(s.(q := RemoveError(s.q, id)))
  {
    hide RangesOk; hide SlotsOk; hide TasksOk; hide DispatchOk; hide HasAccepted; hide AcceptedOk;
    var q' := RemoveError(s.q, id);
    assert ElementsOk(q', s.tasks) by {
      forall x | x in q'.elements ensures ElementShape(q', s.tasks, x) { assert ElementShape(s.q, s.tasks, x); }
    }
    hide ElementsOk;
    forall x ensures FailedEverywhere(q', s.tasks, x) == FailedEverywhere(s.q, s.tasks, x) { }
    assert Dropped(q', s.tasks, id);
  }

  lemma OnlyDropper(s: State, tid: nat)
    requires PairsOk(s.threads) && tid in s.threads && s.threads[tid].pc.Dropping?
    ensures forall i :: i in s.threads && i != tid ==> !DropsOn(s.threads, i, s.threads[tid].pc.id)
  {
    forall i | i in s.threads && i != tid ensures !DropsOn(s.threads, i, s.threads[tid].pc.id) {
      assert Apart(s.threads[i].pc, s.threads[tid].pc);
    }
  }

  lemma DropElementStep(s: State, a: Action)
    requires Inv(s) && Enabled(s, a) && a.DropStep?
    ensures Inv(Step(s, a))
  {
    hide ElementsOk; hide LeftOk; hide ErrorOk; hide DispatchOk; hide NumbersOk; hide TasksOk; hide RangesOk;
    hide SlotsOk; hide AcceptedOk;
    hide CoverOk; hide PairsOk; hide ThreadsOk; hide OrderOk; hide Rest; hide Assigned; hide HasAccepted;
    hide PlanOkNow;
    var tid, th := a.tid, s.threads[a.tid];
    var id := th.pc.id;
    var q' := RemoveError(s.q, id);
    OwnThread(s, tid);
    QueuedAlive(s, id);
    OnlyDropper(s, tid);
    LoopThread(s.q, s.tasks, s.accepted, th, q');
    DropRest(s, id);
    RemoveThreads(s, tid, id, q');
    RemoveOrder(s, tid, id, q');
    LoopPairs(s, tid);
    SamePlaces(s.(q := q'), tid, Looping);
    MoveMain(s, Step(s, a));
  }

  // ----- counting an error -----

  lemma SubsetCard<T>(a: set<T>, b: set<T>)
    requires a <= b
    ensures |a| <= |b| && (|a| >= |b| <==> a == b)
  {
    assert b == a + (b - a);
  }

  lemma RecordThreads(s: State, tid: nat, q': Queue, pc: Pc)
    requires Inv(s) && tid in s.threads && s.threads[tid].pc.Failing? && s.threads[tid].pc.id in s.q.order
    requires q' == Record(s.q, s.threads[tid].pc.id, s.threads[tid].pc.snap.server)
    requires ThreadOk(q', s.tasks, s.accepted, s.threads[tid].(pc := pc))
    ensures ThreadsOk(SetPc(s, tid, pc).threads, q', s.tasks, s.accepted)
  {
    hide ElementsOk; hide LeftOk; hide ErrorOk; hide DispatchOk; hide NumbersOk; hide TasksOk; hide RangesOk;
    hide SlotsOk; hide AcceptedOk;
    hide CoverOk; hide MainOk; hide OrderOk; hide HasAccepted; hide Rest; hide Assigned;
    var id := s.threads[tid].pc.id;
    FlyingNotFailed(s, tid);
    hide FailedEverywhere;
    forall i | i in s.threads && i != tid ensures ThreadOk(q', s.tasks, s.accepted, s.threads[i]) {
      assert ThreadOk(s.q, s.tasks, s.accepted, s.threads[i]);
      assert !DropsOn(s.threads, i, id);
      assert Apart(s.threads[i].pc, s.threads[tid].pc);
    }
  }

  lemma RecordRest(s: State, id: nat, server: Server)
    requires Rest(s) && id in s.q.order && id in s.q.elements && server in s.q.elements[id].servers
    ensures Rest(s.(q := Record(s.q, id, server)))
  {
    hide RangesOk; hide SlotsOk; hide TasksOk; hide HasAccepted;
    var q' := Record(s.q, id, server);
    assert ElementsOk(q', s.tasks) by {
      forall x | x in q'.elements ensures ElementShape(q', s.tasks, x) { assert ElementShape(s.q, s.tasks, x); }
    }
    hide ElementsOk;
    RecordDispatch(s.q.elements, q'.elements, s.dispatched);
    hide DispatchOk;
    forall x | x !in q'.order ensures FailedEverywhere(q', s.tasks, x) == FailedEverywhere(s.q, s.tasks, x) { }
    forall x ensures Dropped(q', s.tasks, x) == Dropped(s.q, s.tasks, x) { }
  }

  lemma RecordDispatch(a: map<nat, Element>, b: map<nat, Element>, dispatched: seq<(nat, Server)>)
    requires DispatchOk(a, dispatched) && a.Keys == b.Keys && forall x :: x in a ==> a[x].servers == b[x].servers
    ensures DispatchOk(b, dispatched)
  {
  }

  lemma RecordPairs(s: State, tid: nat, pc: Pc)
    requires Inv(s) && tid in s.threads && s.threads[tid].pc.Failing?
    requires pc == Dropping(s.threads[tid].pc.snap, s.threads[tid].pc.id)
    ensures PairsOk(SetPc(s, tid, pc).threads)
  {
    hide ElementsOk; hide LeftOk; hide ErrorOk; hide DispatchOk; hide NumbersOk; hide TasksOk; hide RangesOk;
    hide SlotsOk; hide AcceptedOk;
    hide CoverOk; hide MainOk; hide OrderOk; hide ThreadsOk; hide Rest;
    FlyingNotFailed(s, tid);
    hide FailedEverywhere;
    forall i | i in s.threads && i != tid ensures Apart(s.threads[i].pc, pc) && Apart(pc, s.threads[i].pc) {
      assert Apart(s.threads[i].pc, s.threads[tid].pc);
      assert !DropsOn(s.threads, i, pc.id);
    }
  }

  lemma RecordBusy(s: State, tid: nat, pc: Pc, e: Element, all: set<Server>, id: nat)
    requires Busy(s.threads, e, all, id) && tid in s.threads && s.threads[tid].pc.Failing? && s.threads[tid].pc.id == id
    requires var all_failed := e.errors + {s.threads[tid].pc.snap.server} == all;
             pc == if all_failed then Dropping(s.threads[tid].pc.snap, id) else Looping
    ensures Busy(SetPc(s, tid, pc).threads, e.(errors := e.errors + {s.threads[tid].pc.snap.server}), all, id)
  {
    var now, server := SetPc(s, tid, pc).threads, s.threads[tid].pc.snap.server;
    forall v | v in e.servers && v !in e.errors + {server} ensures exists i :: FliesOn(now, i, id, v) {
      var i :| FliesOn(s.threads, i, id, v);
      assert FliesOn(now, i, id, v);
    }
    if e.errors + {server} == all { assert DropsOn(now, tid, id); }
  }

  lemma RecordOrder(s: State, tid: nat, pc: Pc, q': Queue)
    requires OrderOk(s.q, s.tasks, s.threads) && tid in s.threads && s.threads[tid].pc.Failing? &&
             s.threads[tid].pc.id in s.q.order
    requires q' == Record(s.q, s.threads[tid].pc.id, s.threads[tid].pc.snap.server)
    requires s.q.taskId in s.tasks && s.threads[tid].pc.id in s.q.elements
    requires var id := s.threads[tid].pc.id;
             var all_failed := q'.elements[id].errors == s.tasks[s.q.taskId].servers;
             pc == if all_failed then Dropping(s.threads[tid].pc.snap, id) else Looping
    ensures OrderOk(q', s.tasks, SetPc(s, tid, pc).threads)
  {
    hide Busy;
    forall x | x in q'.order
      ensures Busy(SetPc(s, tid, pc).threads, q'.elements[x], s.tasks[s.q.taskId].servers, x)
    {
      if x == s.threads[tid].pc.id {
        RecordBusy(s, tid, pc, s.q.elements[x], s.tasks[s.q.taskId].servers, x);
      } else {
        MoveBusy(s, tid, pc, s.q.elements[x], s.tasks[s.q.taskId].servers, x);
      }
    }
  }

  /** The count test of the worker: reached exactly when the element has failed on every server. */
  lemma CountTest(s: State, tid: nat)
    requires Inv(s) && tid in s.threads && s.threads[tid].pc.Failing?
    ensures var pc := s.threads[tid].pc;
            var q' := Record(s.q, pc.id, pc.snap.server);
            ErrorCount(q', pc.id) >= pc.snap.unique <==>
              pc.id in s.q.order && pc.id in s.q.elements && pc.snap.task in s.tasks &&
                q'.elements[pc.id].errors == s.tasks[pc.snap.task].servers
  {
    hide ElementsOk; hide LeftOk; hide ErrorOk; hide DispatchOk; hide NumbersOk; hide TasksOk; hide RangesOk;
    hide SlotsOk; hide AcceptedOk;
    hide CoverOk; hide MainOk; hide PairsOk; hide OrderOk; hide ThreadsOk; hide Rest; hide HasAccepted;
    var pc := s.threads[tid].pc;
    OwnThread(s, tid);
    ElementShaped(s, pc.id);
    var all := s.tasks[pc.snap.task].servers;
    SubsetCard({pc.snap.server}, all);
    SubsetCard(s.q.elements[pc.id].errors + {pc.snap.server}, all);
  }

  lemma ErrorElementStep(s: State, a: Action)
    requires Inv(s) && Enabled(s, a) && a.ErrorStep?
    ensures Inv(Step(s, a))
  {
    hide ElementsOk; hide LeftOk; hide ErrorOk; hide DispatchOk; hide NumbersOk; hide TasksOk; hide RangesOk;
    hide SlotsOk; hide AcceptedOk;
    hide CoverOk; hide MainOk; hide PairsOk; hide OrderOk; hide ThreadsOk; hide Rest; hide HasAccepted;
    hide FailedEverywhere;
    var tid, th := a.tid, s.threads[a.tid];
    var id := th.pc.id;
    CountTest(s, tid);
    OwnThread(s, tid);
    var pc := Step(s, a).threads[tid].pc;
    var q' := Step(s, a).q;
    LoopThread(s.q, s.tasks, s.accepted, th, q');
    if id in s.q.order {
      QueuedAlive(s, id);
      RecordRest(s, id, th.pc.snap.server);
      if pc.Dropping? {
        RecordPairs(s, tid, pc);
        assert ThreadOk(q', s.tasks, s.accepted, th.(pc := pc));
      } else {
        LoopPairs(s, tid);
      }
      RecordThreads(s, tid, q', pc);
      RecordOrder(s, tid, pc, q');
      SamePlaces(s.(q := q'), tid, pc);
      MoveMain(s, Step(s, a));
    } else {
      assert Step(s, a) == SetPc(s, tid, Looping);
      MoveInv(s, tid, Looping);
    }
  }

  // ----- accepting a response -----

  lemma AcceptThreads(s: State, tasks': Tasks, accepted': Accepted)
    requires ThreadsOk(s.threads, s.q, s.tasks, s.accepted)
    requires tasks'.Keys == s.tasks.Keys && (forall t :: t in s.tasks ==>
             tasks'[t] == s.tasks[t].(answers := tasks'[t].answers))
    requires s.accepted <= accepted'
    ensures ThreadsOk(s.threads, s.q, tasks', accepted')
  {
    forall i | i in s.threads ensures ThreadOk(s.q, tasks', accepted', s.threads[i]) {
      assert ThreadOk(s.q, s.tasks, s.accepted, s.threads[i]);
      var pc := s.threads[i].pc;
      if pc.Removing? {
        var d :| WasAccepted(s.accepted, pc.id, d);
        assert WasAccepted(accepted', pc.id, d);
      }
    }
  }

  lemma SlotKept(accepted: Accepted, id: nat, answer: Data, other: nat, response: Data)
    requires SlotOk(accepted, id, answer) && (other != id || answer != [])
    ensures SlotOk(accepted + {(other, response)}, id, answer)
  {
    forall d | WasAccepted(accepted + {(other, response)}, id, d)
      ensures WasAccepted(accepted, id, d) || (other == id && d == response) { }
  }

  lemma SlotFilled(accepted: Accepted, id: nat, response: Data)
    requires SlotOk(accepted, id, [])
    ensures SlotOk(accepted + {(id, response)}, id, response)
  {
    forall d | WasAccepted(accepted + {(id, response)}, id, d) ensures WasAccepted(accepted, id, d) || d == response { }
  }

  lemma AcceptSlots(tasks: Tasks, accepted: Accepted, t: nat, pos: nat, response: Data)
    requires SlotsOk(tasks, accepted) && RangesOk(tasks) && t in tasks && pos < |tasks[t].answers|
    requires forall u :: u in tasks ==> |tasks[u].answers| == |tasks[u].segments|
    ensures SlotsOk(tasks[t := Answered(tasks[t], pos, response)], accepted + {(tasks[t].base + pos, response)})
  {
    hide SlotOk;
    var tasks' := tasks[t := Answered(tasks[t], pos, response)];
    var id := tasks[t].base + pos;
    forall u, i | u in tasks' && 0 <= i < |tasks'[u].answers|
      ensures SlotOk(accepted + {(id, response)}, tasks'[u].base + i, tasks'[u].answers[i])
    {
      assert SlotOk(accepted, tasks[u].base + i, tasks[u].answers[i]);
      if tasks[u].base + i == id && tasks[u].answers[i] == [] {
        assert u == t && i == pos;
        SlotFilled(accepted, id, response);
      } else {
        SlotKept(accepted, tasks[u].base + i, tasks[u].answers[i], id, response);
      }
    }
  }

  lemma AcceptRest(s: State, id: nat, response: Data)
    requires Rest(s) && id in s.q.elements && ElementShape(s.q, s.tasks, id)
    requires Acceptable(s.tasks[s.q.elements[id].task], s.q.elements[id].segment, response, false)
    ensures var e := s.q.elements[id];
            var pos := e.segment.posInArray;
            pos < |s.tasks[e.task].answers| &&
            Rest(s.(tasks := s.tasks[e.task := Answered(s.tasks[e.task], pos, response)],
              accepted := s.accepted + {(id, response)}))
  {
    hide LeftOk; hide ErrorOk; hide DispatchOk; hide NumbersOk; hide AcceptedOk; hide ElementsOk; hide SlotsOk;
    hide RangesOk;
    var e := s.q.elements[id];
    var t, pos := e.task, e.segment.posInArray;
    assert TaskOk(s.tasks[t], t, s.q.taskId, Over(s.main));
    assert id == s.tasks[t].base + pos;
    var task' := Answered(s.tasks[t], pos, response);
    forall u | u in s.tasks ensures |s.tasks[u].answers| == |s.tasks[u].segments| {
      assert TaskOk(s.tasks[u], u, s.q.taskId, Over(s.main));
    }
    AcceptSlots(s.tasks, s.accepted, t, pos, response);
    AcceptedOne(s, id, response, task');
    AcceptElements(s, t, task');
    AcceptLeft(s, t, task', s.accepted + {(id, response)});
    assert TaskOk(task', t, s.q.taskId, Over(s.main));
  }

  lemma AcceptedOne(s: State, id: nat, response: Data, task': Task)
    requires AcceptedOk(s.q.elements, s.tasks, s.accepted) && id in s.q.elements && s.q.elements[id].task in s.tasks
    requires Acceptable(s.tasks[s.q.elements[id].task], s.q.elements[id].segment, response, false)
    requires task' == s.tasks[s.q.elements[id].task].(answers := task'.answers)
    ensures AcceptedOk(s.q.elements, s.tasks[s.q.elements[id].task := task'], s.accepted + {(id, response)})
  {
    forall x, d | WasAccepted(s.accepted + {(id, response)}, x, d)
      ensures WasAccepted(s.accepted, x, d) || (x == id && d == response) { }
  }

  lemma AcceptElements(s: State, t: nat, task': Task)
    requires ElementsOk(s.q, s.tasks) && RangesOk(s.tasks) && t in s.tasks &&
             task' == s.tasks[t].(answers := task'.answers)
    ensures ElementsOk(s.q, s.tasks[t := task']) && RangesOk(s.tasks[t := task'])
  {
    forall x | x in s.q.elements ensures ElementShape(s.q, s.tasks[t := task'], x) {
      assert ElementShape(s.q, s.tasks, x);
    }
  }

  lemma AcceptLeft(s: State, t: nat, task': Task, accepted': Accepted)
    requires LeftOk(s.q, s.tasks, s.accepted) && ErrorOk(s.q, s.tasks) && s.accepted <= accepted'
    requires t in s.tasks && task' == s.tasks[t].(answers := task'.answers)
    ensures LeftOk(s.q, s.tasks[t := task'], accepted') && ErrorOk(s.q, s.tasks[t := task'])
  {
    var tasks' := s.tasks[t := task'];
    forall x ensures FailedEverywhere(s.q, tasks', x) == FailedEverywhere(s.q, s.tasks, x) &&
                     Dropped(s.q, tasks', x) == Dropped(s.q, s.tasks, x) { }
    forall x | HasAccepted(s.accepted, x) ensures HasAccepted(accepted', x) {
      var d :| WasAccepted(s.accepted, x, d);
      assert WasAccepted(accepted', x, d);
    }
  }

  lemma AcceptOrder(s: State, tasks': Tasks)
    requires OrderOk(s.q, s.tasks, s.threads)
    requires tasks'.Keys == s.tasks.Keys && (forall t :: t in s.tasks ==>
             tasks'[t] == s.tasks[t].(answers := tasks'[t].answers))
    ensures OrderOk(s.q, tasks', s.threads)
  {
    hide Busy;
  }

  lemma AcceptStep(s: State, a: Action)
    requires Inv(s) && Enabled(s, a) && a.EndParse? && !Moves(s, a)
    ensures Inv(Step(s, a))
  {
    hide ElementsOk; hide LeftOk; hide ErrorOk; hide DispatchOk; hide NumbersOk; hide TasksOk; hide RangesOk;
    hide SlotsOk; hide AcceptedOk;
    hide CoverOk; hide MainOk; hide PairsOk; hide OrderOk; hide ThreadsOk; hide Rest; hide FailedEverywhere;
    hide ElementShape;
    var tid, th := a.tid, s.threads[a.tid];
    var id, t := th.pc.id, th.pc.snap.refs;
    OwnThread(s, tid);
    ElementShaped(s, id);
    AcceptRest(s, id, a.response);
    var pc := Removing(th.pc.snap, id);
    var task' := Answered(s.tasks[t], th.pc.segment.posInArray, a.response);
    var mid := s.(tasks := s.tasks[t := task'], accepted := s.accepted + {(id, a.response)});
    AcceptThreads(s, mid.tasks, mid.accepted);
    AcceptOrder(s, mid.tasks);
    assert WasAccepted(mid.accepted, id, a.response);
    assert ThreadOk(mid.q, mid.tasks, mid.accepted, th.(pc := pc));
    MoveMain(s, mid);
    MoveInv(mid, tid, pc);
    assert Step(s, a) == SetPc(mid, tid, pc);
  }
}
