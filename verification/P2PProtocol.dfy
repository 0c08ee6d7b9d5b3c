/** The segment-download protocol (src/P2P/P2PThread.cpp, P2P_Impl.cpp, P2P_Ips.cpp, ReferenceWrapper.h) as a transition
    system: a main thread that runs one task after another, and worker threads that take segments from the queue,
    request them from their server, and report back. Locks make each action below atomic; every interleaving of actions
    is a run. */
module P2PProtocol {
  import opened Bytes
  import opened P2PQueue

  // ----- states -----

  /** What a worker copies under its lock at the top of its loop; `refs` is the task whose callbacks it will use. */
  datatype Snap = Snap(task: nat, server: Server, refs: nat, unique: nat)

  datatype Pc =
    | Looping
    | Parked(task: nat)
    | Fetching(snap: Snap)
    | Given(snap: Snap, id: nat)
    | HasSegment(snap: Snap, id: nat, segment: Segment)
    | Building(snap: Snap, id: nat, segment: Segment)    // inside makeQsAndPost
    | Requesting(snap: Snap, id: nat, segment: Segment)
    | Responded(snap: Snap, id: nat, segment: Segment)
    | Parsing(snap: Snap, id: nat, segment: Segment)     // inside processResponse
    | Removing(snap: Snap, id: nat)
    | Failing(snap: Snap, id: nat)
    | Dropping(snap: Snap, id: nat)                      // failed everywhere, about to be removed with an error
  {
    predicate Holds() { !Looping? && !Parked? && !Fetching? }
    predicate Flies() { Holds() && !Dropping? }
    predicate InCallback() { Building? || Parsing? }
    predicate HasSnap() { !Looping? && !Parked? }
    predicate HasSeg() { HasSegment? || Building? || Requesting? || Responded? || Parsing? }
  }

  datatype Thread = Thread(task: nat, server: Server, refs: nat, unique: nat, pc: Pc)

  /** One call of process(). Element `base + i` is the one queued for segment `i`. */
  datatype Task = Task(segments: seq<Segment>, servers: set<Server>, precise: bool, base: nat, destroyed: bool,
                       answers: seq<Data>)

  datatype Main =
    | Between
    | Assigning(plan: seq<(nat, Server)>)
    | Adding(count: nat)
    | Waiting
    | Read(error: bool)
    | Destroyed(error: bool)

  /** `dispatched` and `accepted` are histories: which element was given to which server, and which parsed responses
      were accepted for which element. */
  datatype State = State(
    q: Queue, threads: map<nat, Thread>, main: Main, tasks: map<nat, Task>,
    dispatched: seq<(nat, Server)>, accepted: set<(nat, Data)>)

  // ----- actions -----

  datatype Action =
    | StartTask(segments: seq<Segment>, plan: seq<(nat, Server)>, precise: bool)
    | Assign
    | PlanDone
    | AddSegment
    | AllAdded
    | WaitDone
    | Destroy
    | StopQueue
    | TakeSnapshot(tid: nat)
    | GetClosed(tid: nat)
    | GetElement(tid: nat)
    | GetSegment(tid: nat)
    | BeginBuild(tid: nat)
    | EndBuild(tid: nat)
    | Respond(tid: nat, ok: bool)
    | BeginParse(tid: nat)
    | EndParse(tid: nat, response: Data, error: bool)
    | RemoveStep(tid: nat)
    | ErrorStep(tid: nat)
    | DropStep(tid: nat)

  predicate IsMain(a: Action)
  {
    a.StartTask? || a.Assign? || a.PlanDone? || a.AddSegment? || a.AllAdded? || a.WaitDone? || a.Destroy? ||
      a.StopQueue?
  }

  function PlanServers(plan: seq<(nat, Server)>): set<Server> { set i | 0 <= i < |plan| :: plan[i].1 }

  /** Worker threads of the plan exist and are distinct; answers are slotted by position. */
  predicate PlanOk(s: State, segments: seq<Segment>, plan: seq<(nat, Server)>)
  {
    plan != [] &&
    (forall i :: 0 <= i < |plan| ==> plan[i].0 in s.threads) &&
    (forall i, j :: 0 <= i < j < |plan| ==> plan[i].0 != plan[j].0) &&
    (forall i :: 0 <= i < |segments| ==> segments[i].posInArray == i && segments[i].fromByte <= segments[i].toByte)
  }

  function Current(s: State): Task
    requires s.q.taskId in s.tasks
  {
    s.tasks[s.q.taskId]
  }

  predicate Enabled(s: State, a: Action)
  {
    if IsMain(a) then MainEnabled(s, a) else a.tid in s.threads && ThreadEnabled(s, a, s.threads[a.tid])
  }

  predicate MainEnabled(s: State, a: Action)
    requires IsMain(a)
  {
    if a.StartTask? then s.main.Between? && PlanOk(s, a.segments, a.plan)
    else
      s.q.taskId in s.tasks &&
      match a
      case StartTask(_, _, _) => true
      case Assign => s.main.Assigning? && s.main.plan != [] && s.main.plan[0].0 in s.threads
      case PlanDone => s.main.Assigning? && s.main.plan == []
      case AddSegment => s.main.Adding? && s.main.count < |Current(s).segments|
      case AllAdded => s.main.Adding? && s.main.count >= |Current(s).segments|
      case WaitDone => s.main.Waiting? && s.q.order == []
      case Destroy => s.main.Read? && forall i :: i in s.threads && s.threads[i].pc.InCallback() ==>
        s.threads[i].pc.snap.refs != s.q.taskId
      case StopQueue => s.main.Destroyed?
  }

  predicate ThreadEnabled(s: State, a: Action, th: Thread)
    requires !IsMain(a)
  {
    match a
    case TakeSnapshot(_) => th.pc.Looping? || (th.pc.Parked? && th.pc.task != th.task)
    case GetClosed(_) => th.pc.Fetching? && (th.pc.snap.task != s.q.taskId || s.q.stopped)
    case GetElement(_) =>
      th.pc.Fetching? && th.pc.snap.task == s.q.taskId && !s.q.stopped &&
        LastFree(s.q, s.q.order, th.pc.snap.server) >= 0
    case GetSegment(_) => th.pc.Given? && th.pc.id in s.q.elements
    case BeginBuild(_) => th.pc.HasSegment? && th.pc.snap.refs in s.tasks
    case EndBuild(_) => th.pc.Building?
    case Respond(_, _) => th.pc.Requesting?
    case BeginParse(_) => th.pc.Responded? && th.pc.snap.refs in s.tasks
    case EndParse(_, _, _) =>
      th.pc.Parsing? && th.pc.snap.refs in s.tasks && th.pc.segment.posInArray < |s.tasks[th.pc.snap.refs].answers|
    case RemoveStep(_) => th.pc.Removing?
    case ErrorStep(_) => th.pc.Failing?
    case DropStep(_) => th.pc.Dropping?
    case _ => false
  }

  function SetPc(s: State, tid: nat, pc: Pc): State
    requires tid in s.threads
  {
    s.(threads := s.threads[tid := s.threads[tid].(pc := pc)])
  }

  function SetTask(s: State, t: nat, task: Task): State { s.(tasks := s.tasks[t := task]) }

  function MainStep(s: State, a: Action): State
    requires IsMain(a) && MainEnabled(s, a)
  {
    match a
    case StartTask(segments, plan, precise) =>
      var t := s.q.taskId + 1;
      SetTask(s, t, Task(segments, PlanServers(plan), precise, s.q.next, false, seq(|segments|, _ => [])))
        .(q := P2PQueue.Start(s.q, t), main := Assigning(plan))
    case Assign =>
      var (tid, server) := s.main.plan[0];
      var t := s.q.taskId;
      s.(threads := s.threads[tid := s.threads[tid].(task := t, server := server, refs := t,
        unique := |Current(s).servers|)],
         main := Assigning(s.main.plan[1..]))
    case PlanDone => s.(main := Adding(0))
    case AddSegment => s.(q := Add(s.q, Current(s).segments[s.main.count]), main := Adding(s.main.count + 1))
    case AllAdded => s.(main := Waiting)
    case WaitDone => s.(main := Read(s.q.error))
    case Destroy => SetTask(s, s.q.taskId, Current(s).(destroyed := true)).(main := Destroyed(s.main.error))
    case StopQueue => s.(q := P2PQueue.Stop(s.q), main := Between)
  }

  /** The parsed response is acceptable for its segment. */
  predicate Acceptable(task: Task, segment: Segment, response: Data, error: bool)
  {
    !error && (task.precise ==> |response| == segment.toByte - segment.fromByte)
  }

  /** The first non-empty accepted response of a slot stays. */
  function Answered(task: Task, pos: nat, response: Data): Task
    requires pos < |task.answers|
  {
    if task.answers[pos] == [] then task.(answers := task.answers[pos := response]) else task
  }

  function ThreadStep(s: State, a: Action): State
    requires !IsMain(a) && a.tid in s.threads && ThreadEnabled(s, a, s.threads[a.tid])
  {
    var th := s.threads[a.tid];
    var pc := th.pc;
    match a
    case TakeSnapshot(tid) => SetPc(s, tid, Fetching(Snap(th.task, th.server, th.refs, th.unique)))
    case GetClosed(tid) => SetPc(s, tid, Parked(pc.snap.task))
    case GetElement(tid) =>
      var i := LastFree(s.q, s.q.order, pc.snap.server);
      var id := s.q.order[i];
      SetPc(s, tid, Given(pc.snap, id)).(q := Give(s.q, i, pc.snap.server),
        dispatched := s.dispatched + [(id, pc.snap.server)])
    case GetSegment(tid) =>
      SetPc(s, tid, if pc.id in s.q.order then HasSegment(pc.snap, pc.id, s.q.elements[pc.id].segment) else Looping)
    case BeginBuild(tid) =>
      SetPc(s, tid, if s.tasks[pc.snap.refs].destroyed then Looping else Building(pc.snap, pc.id, pc.segment))
    case EndBuild(tid) => SetPc(s, tid, Requesting(pc.snap, pc.id, pc.segment))
    case Respond(tid, ok) =>
      SetPc(s, tid, if ok then Responded(pc.snap, pc.id, pc.segment) else Failing(pc.snap, pc.id))
    case BeginParse(tid) =>
      SetPc(s, tid, if s.tasks[pc.snap.refs].destroyed then Looping else Parsing(pc.snap, pc.id, pc.segment))
    case EndParse(tid, response, error) =>
      var task := s.tasks[pc.snap.refs];
      if Acceptable(task, pc.segment, response, error)
      then SetTask(SetPc(s, tid, Removing(pc.snap, pc.id)), pc.snap.refs,
        Answered(task, pc.segment.posInArray, response))
             .(accepted := s.accepted + {(pc.id, response)})
      else SetPc(s, tid, Failing(pc.snap, pc.id))
    case RemoveStep(tid) => SetPc(s, tid, Looping).(q := Remove(s.q, pc.id))
    case ErrorStep(tid) =>
      var q := Record(s.q, pc.id, pc.snap.server);
      SetPc(s, tid, if ErrorCount(q, pc.id) >= pc.snap.unique then Dropping(pc.snap, pc.id) else Looping).(q := q)
    case DropStep(tid) => SetPc(s, tid, Looping).(q := RemoveError(s.q, pc.id))
  }

  function Step(s: State, a: Action): State
    requires Enabled(s, a)
  {
    if IsMain(a) then MainStep(s, a) else ThreadStep(s, a)
  }

  /** No task yet, every worker parked. */
  ghost predicate Init(s: State)
  {
    s.q == EMPTY_QUEUE && s.main == Between && s.tasks == map[] && s.dispatched == [] && s.accepted == {} &&
    forall i :: i in s.threads ==> s.threads[i].task == 0 && s.threads[i].refs == 0 && s.threads[i].pc == Parked(0)
  }

  /** A run: any enabled actions, one after the other. */
  ghost predicate IsRun(states: seq<State>, actions: seq<Action>)
  {
    |states| == |actions| + 1 && Init(states[0]) &&
    forall i :: 0 <= i < |actions| ==> Enabled(states[i], actions[i]) && states[i + 1] == Step(states[i], actions[i])
  }
}
