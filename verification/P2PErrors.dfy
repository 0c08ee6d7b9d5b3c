/** What makes a server count as failed, over every run of the download protocol, and when a task therefore succeeds. */
module P2PErrors {
  import opened Bytes
  import opened P2PQueue
  import opened P2PProtocol
  import opened P2PInvariant
  import opened P2PTheorems
  import opened P2PSegments
  import opened P2PRequest

  /** The action is the worker's own. */
  predicate IsBy(a: Action, tid: nat) { !IsMain(a) && a.tid == tid }

  /** The worker ends parsing what a server answered for an element. */
  predicate Parses(s: State, a: Action, id: nat, v: Server)
  {
    a.EndParse? && a.tid in s.threads && s.threads[a.tid].pc.Parsing? && s.threads[a.tid].pc.id == id &&
    s.threads[a.tid].pc.snap.server == v
  }

  /** The answer of an exact-size task has another length than its segment. */
  predicate WrongLength(s: State, a: Action)
    requires a.EndParse? && a.tid in s.threads && s.threads[a.tid].pc.Parsing?
  {
    var pc := s.threads[a.tid].pc;
    pc.snap.refs in s.tasks && s.tasks[pc.snap.refs].precise &&
    |a.response| != pc.segment.toByte - pc.segment.fromByte
  }

  /** A server fails on an element: no answer, one that cannot be parsed, or one of the wrong length. */
  predicate FailsAt(s: State, a: Action, id: nat, v: Server)
  {
    (a.Respond? && !a.ok && a.tid in s.threads && s.threads[a.tid].pc.Requesting? && s.threads[a.tid].pc.id == id &&
     s.threads[a.tid].pc.snap.server == v) ||
    (Parses(s, a, id, v) && (a.error || WrongLength(s, a)))
  }

  /** The failure of action `i` is reported by the worker's next action, `j`, while the element is still queued. */
  ghost predicate ReportedAt(states: seq<State>, actions: seq<Action>, i: nat, j: nat, id: nat, v: Server)
    requires |states| == |actions| + 1 && i < j < |actions|
  {
    FailsAt(states[i], actions[i], id, v) && IsBy(actions[j], actions[i].tid) && id in states[j].q.order &&
    forall k :: i < k < j ==> !IsBy(actions[k], actions[i].tid)
  }

  ghost predicate Reported(states: seq<State>, actions: seq<Action>, n: nat, id: nat, v: Server)
    requires |states| == |actions| + 1 && n <= |actions|
  {
    exists i, j :: 0 <= i < j < n && ReportedAt(states, actions, i, j, id, v)
  }

  predicate HasError(s: State, id: nat, v: Server) { id in s.q.elements && v in s.q.elements[id].errors }

  predicate IsFailing(s: State, tid: nat, id: nat, v: Server)
  {
    tid in s.threads && s.threads[tid].pc.Failing? && s.threads[tid].pc.id == id && s.threads[tid].pc.snap.server == v
  }

  // ----- single steps -----

  /** A failure, and nothing else, sends a worker to report one. */
  lemma FailsLeads(s: State, a: Action, tid: nat, id: nat, v: Server)
    requires Enabled(s, a) && IsBy(a, tid)
    ensures IsFailing(Step(s, a), tid, id, v) <==> FailsAt(s, a, id, v)
  {
    hide LastFree; hide Without; hide Record; hide Give;
  }

  lemma OthersKeep(s: State, a: Action, tid: nat, id: nat, v: Server)
    requires Enabled(s, a) && !IsBy(a, tid)
    ensures IsFailing(Step(s, a), tid, id, v) <==> IsFailing(s, tid, id, v)
  {
    if IsMain(a) {
      hide ThreadEnabled; hide ThreadStep; hide Current; hide P2PQueue.Add; hide PlanServers;
    } else {
      hide MainEnabled; hide MainStep; hide LastFree; hide Without; hide Record; hide Give; hide Acceptable;
    }
  }

  /** An error is added exactly by a worker reporting one of a queued element; none is ever forgotten. */
  lemma ErrorsGrow(s: State, a: Action, id: nat, v: Server)
    requires NumbersOk(s.q) && Enabled(s, a)
    ensures HasError(Step(s, a), id, v) <==>
            HasError(s, id, v) || (a.ErrorStep? && IsFailing(s, a.tid, id, v) && id in s.q.order && id in s.q.elements)
  {
    hide LastFree; hide Without; hide Acceptable;
  }

  /** What a reporting worker holds is an element. */
  lemma ReportsElement(s: State, tid: nat, id: nat, v: Server)
    requires Inv(s) && IsFailing(s, tid, id, v)
    ensures id in s.q.elements
  {
    hide Rest; hide CoverOk; hide PairsOk; hide OrderOk; hide MainOk; hide HasAccepted;
    assert ThreadOk(s.q, s.tasks, s.accepted, s.threads[tid]);
  }

  lemma FailingReports(s: State, a: Action, tid: nat, id: nat, v: Server)
    requires Enabled(s, a) && IsBy(a, tid) && IsFailing(s, tid, id, v)
    ensures a.ErrorStep?
  {
  }

  // ----- runs -----

  lemma Numbers(s: State)
    requires Inv(s)
    ensures NumbersOk(s.q)
  {
    hide ElementsOk; hide LeftOk; hide ErrorOk; hide DispatchOk; hide TasksOk; hide RangesOk; hide SlotsOk;
    hide AcceptedOk; hide NumbersOk; hide ThreadsOk; hide PairsOk; hide OrderOk; hide MainOk; hide CoverOk;
  }

  /** Whoever is about to report failed before, and has done nothing since. */
  lemma {:induction false} FailingHasCause(states: seq<State>, actions: seq<Action>, n: nat, tid: nat, id: nat,
                                           v: Server) returns (i: nat)
    requires IsRun(states, actions) && n <= |actions| && IsFailing(states[n], tid, id, v)
    ensures i < n && FailsAt(states[i], actions[i], id, v) && IsBy(actions[i], tid)
    ensures forall k :: i < k < n ==> !IsBy(actions[k], tid)
    decreases n
  {
    hide Enabled; hide Step; hide FailsAt; hide IsFailing; hide IsBy;
    if n == 0 {
      NoneFailing(states[0], tid, id, v);
      assert false;
    } else {
      hide Init;
      var s, a := states[n - 1], actions[n - 1];
      if IsBy(a, tid) {
        FailsLeads(s, a, tid, id, v);
        i := n - 1;
      } else {
        OthersKeep(s, a, tid, id, v);
        i := FailingHasCause(states, actions, n - 1, tid, id, v);
      }
    }
  }

  lemma NoneFailing(s: State, tid: nat, id: nat, v: Server)
    requires Init(s)
    ensures !IsFailing(s, tid, id, v) && !HasError(s, id, v)
  {
  }

  /** From a failure on the worker stays about to report it until it acts again. */
  lemma {:induction false} FailureWaits(states: seq<State>, actions: seq<Action>, i: nat, n: nat, id: nat, v: Server)
    requires IsRun(states, actions) && i < n <= |actions| && FailsAt(states[i], actions[i], id, v)
    requires !IsMain(actions[i]) && forall k :: i < k < n ==> !IsBy(actions[k], actions[i].tid)
    ensures IsFailing(states[n], actions[i].tid, id, v)
    decreases n
  {
    hide Enabled; hide Step; hide FailsAt; hide IsFailing; hide Init;
    var tid := actions[i].tid;
    if n == i + 1 {
      FailsLeads(states[i], actions[i], tid, id, v);
    } else {
      FailureWaits(states, actions, i, n - 1, id, v);
      OthersKeep(states[n - 1], actions[n - 1], tid, id, v);
    }
  }

  ghost predicate ReportedNow(states: seq<State>, actions: seq<Action>, j: nat, id: nat, v: Server)
    requires |states| == |actions| + 1 && j < |actions|
  {
    exists i :: 0 <= i < j && ReportedAt(states, actions, i, j, id, v)
  }

  lemma Widens(states: seq<State>, actions: seq<Action>, n: nat, id: nat, v: Server)
    requires |states| == |actions| + 1 && n < |actions|
    ensures Reported(states, actions, n + 1, id, v) <==>
            Reported(states, actions, n, id, v) || ReportedNow(states, actions, n, id, v)
  {
    hide ReportedAt;
  }

  lemma FailsIsWorker(s: State, a: Action, id: nat, v: Server)
    requires FailsAt(s, a, id, v)
    ensures !IsMain(a)
  {
  }

  /** In every run a server is in the errors of an element exactly when it failed on it and the failure was reported
      while the element was still queued. */
  lemma {:induction false} ErrorsAreReports(states: seq<State>, actions: seq<Action>, n: nat, id: nat, v: Server)
    requires IsRun(states, actions) && n <= |actions|
    ensures HasError(states[n], id, v) <==> Reported(states, actions, n, id, v)
    decreases n
  {
    hide Inv; hide Enabled; hide Step; hide FailsAt; hide IsFailing; hide HasError; hide NumbersOk;
    if n == 0 {
      NoneFailing(states[0], 0, id, v);
    } else {
      hide Init;
      var s, a := states[n - 1], actions[n - 1];
      ErrorsAreReports(states, actions, n - 1, id, v);
      Widens(states, actions, n - 1, id, v);
      RunInv(states, actions, n - 1);
      Numbers(s);
      ErrorsGrow(s, a, id, v);
      if a.ErrorStep? && IsFailing(s, a.tid, id, v) && id in s.q.order {
        ReportsElement(s, a.tid, id, v);
        var i := FailingHasCause(states, actions, n - 1, a.tid, id, v);
        CauseIsReport(states, actions, i, n - 1, a.tid, id, v);
      }
      if ReportedNow(states, actions, n - 1, id, v) {
        var j: nat := n - 1;
        var i :| 0 <= i < j && ReportedAt(states, actions, i, j, id, v);
        FailsIsWorker(states[i], actions[i], id, v);
        FailureWaits(states, actions, i, n - 1, id, v);
        FailingReports(s, a, a.tid, id, v);
        ReportsElement(s, a.tid, id, v);
      }
    }
  }

  lemma CauseIsReport(states: seq<State>, actions: seq<Action>, i: nat, j: nat, tid: nat, id: nat, v: Server)
    requires IsRun(states, actions) && i < j < |actions| && FailsAt(states[i], actions[i], id, v)
    requires IsBy(actions[i], tid) && IsBy(actions[j], tid) && id in states[j].q.order
    requires forall k :: i < k < j ==> !IsBy(actions[k], tid)
    ensures ReportedAt(states, actions, i, j, id, v)
  {
    hide Enabled; hide Step; hide FailsAt; hide Init;
  }

  // ----- accepted responses -----

  /** The worker ends parsing an answer for an element that is sound, and in an exact-size task of the right length. */
  predicate SucceedsAt(s: State, a: Action, id: nat, response: Data)
  {
    a.EndParse? && a.tid in s.threads && s.threads[a.tid].pc.Parsing? && s.threads[a.tid].pc.id == id &&
    a.response == response && !a.error && !WrongLength(s, a)
  }

  lemma AcceptedGrow(s: State, a: Action, id: nat, d: Data)
    requires Enabled(s, a)
    ensures WasAccepted(Step(s, a).accepted, id, d) <==> WasAccepted(s.accepted, id, d) || SucceedsAt(s, a, id, d)
  {
    hide LastFree; hide Without; hide Record; hide Give;
  }

  /** In every run the accepted responses of an element are exactly the sound ones parsed for it. */
  lemma {:induction false} AcceptedAreSound(states: seq<State>, actions: seq<Action>, n: nat, id: nat, d: Data)
    requires IsRun(states, actions) && n <= |actions|
    ensures WasAccepted(states[n].accepted, id, d) <==>
            exists i :: 0 <= i < n && SucceedsAt(states[i], actions[i], id, d)
    decreases n
  {
    hide Enabled; hide Step; hide SucceedsAt; hide WasAccepted;
    if n == 0 {
      NothingAccepted(states[0], id, d);
    } else {
      hide Init;
      AcceptedAreSound(states, actions, n - 1, id, d);
      AcceptedGrow(states[n - 1], actions[n - 1], id, d);
    }
  }

  lemma NothingAccepted(s: State, id: nat, d: Data)
    requires Init(s)
    ensures !WasAccepted(s.accepted, id, d)
  {
  }

  // ----- when a task succeeds -----

  /** In the whole run the server never failed on the element. */
  ghost predicate NeverFails(states: seq<State>, actions: seq<Action>, id: nat, v: Server)
    requires |states| == |actions| + 1
  {
    forall i :: 0 <= i < |actions| ==> !FailsAt(states[i], actions[i], id, v)
  }

  /** Segment `i` of the request that action `k` starts has a server that never fails on it. */
  ghost predicate ServedAt(states: seq<State>, actions: seq<Action>, k: nat, i: nat)
    requires |states| == |actions| + 1 && k < |actions| && actions[k].StartTask?
  {
    exists v :: v in PlanServers(actions[k].plan) && NeverFails(states, actions, states[k].q.next + i, v)
  }

  ghost predicate Served(states: seq<State>, actions: seq<Action>, k: nat)
    requires |states| == |actions| + 1 && k < |actions| && actions[k].StartTask?
  {
    forall i :: 0 <= i < |actions[k].segments| ==> ServedAt(states, actions, k, i)
  }

  lemma NoReports(states: seq<State>, actions: seq<Action>, id: nat, v: Server)
    requires IsRun(states, actions) && NeverFails(states, actions, id, v)
    ensures !HasError(states[|actions|], id, v)
  {
    hide Enabled; hide Step; hide FailsAt; hide Init; hide HasError;
    ErrorsAreReports(states, actions, |actions|, id, v);
  }

  /** A task in which each segment has one server that never fails on it ends without an error. */
  lemma ServedSucceeds(states: seq<State>, actions: seq<Action>, k: nat)
    requires IsRun(states, actions) && AtEndOf(states, actions, k) && Served(states, actions, k)
    ensures !states[|actions|].main.error
  {
    hide Enabled; hide Step; hide NeverFails; hide Init; hide PlanServers;
    var s := states[|actions|];
    RunTask(states, actions, k, |actions|);
    assert Reachable(s);
    ErrorMeansFailed(s);
    forall i: nat ensures !SegmentFailed(s, i) {
      if SegmentFailed(s, i) {
        assert ServedAt(states, actions, k, i);
        var v :| v in PlanServers(actions[k].plan) && NeverFails(states, actions, states[k].q.next + i, v);
        NoReports(states, actions, states[k].q.next + i, v);
      }
    }
  }

  /** In every interleaving, a prepared request returns the requested bytes when each segment has one server that never
      fails on it and no server lies: whatever the other servers do, and whoever is asked first. */
  lemma RequestSucceeds(states: seq<State>, actions: seq<Action>, k: nat, servers: seq<Server>, connections: nat,
                        minSize: nat, content: Data)
    requires IsRun(states, actions) && AtEndOf(states, actions, k) && minSize > 0 && Served(states, actions, k)
    requires Prepared(actions[k].segments, actions[k].plan, servers, connections, |content|, minSize)
    requires forall i :: 0 <= i < |actions| ==>
               Truthful(states[i], actions[i], states[|actions|].q.taskId, content)
    ensures var s := states[|actions|];
            !s.main.error && s.q.taskId in s.tasks && Flatten(Current(s).answers) == content
  {
    hide Enabled; hide Step; hide Init; hide Prepared; hide Truthful; hide Served; hide Flatten;
    ServedSucceeds(states, actions, k);
    RequestOutcome(states, actions, k, servers, connections, minSize, content);
  }
}
