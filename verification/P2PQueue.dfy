/** The work queue of the download protocol (src/P2P/QueueP2P.*). Handles are weak: an element that left the queue is
    gone for every holder of a handle, which its never reused number models. */
module P2PQueue {

  type Server = string

  datatype Segment = Segment(fromByte: nat, toByte: nat, posInArray: nat)

  datatype Element = Element(task: nat, segment: Segment, servers: set<Server>, errors: set<Server>)

  /** `order` lists the queued elements; `elements` also remembers those that left. */
  datatype Queue = Queue(order: seq<nat>, elements: map<nat, Element>, stopped: bool, error: bool, taskId: nat,
                         next: nat)

  const EMPTY_QUEUE := Queue([], map[], true, false, 0, 0)

  // ----- the list -----

  function Without(order: seq<nat>, id: nat): (r: seq<nat>)
    ensures forall x :: x in r <==> x in order && x != id
  {
    if order == [] then []
    else
      assert order == [order[0]] + order[1..];
      (if order[0] == id then [] else [order[0]]) + Without(order[1..], id)
  }

  lemma {:induction false} WithoutAbsent(order: seq<nat>, id: nat)
    requires id !in order
    ensures Without(order, id) == order
  {
    if order != [] {
      assert order[0] in order;
      WithoutAbsent(order[1..], id);
    }
  }

  predicate Free(q: Queue, id: nat, server: Server)
  {
    id in q.elements && server !in q.elements[id].servers
  }

  /** The last queued element not yet given to this server. */
  function LastFree(q: Queue, order: seq<nat>, server: Server): (r: int)
    ensures -1 <= r < |order|
    ensures r >= 0 ==> Free(q, order[r], server)
    ensures forall i :: r < i < |order| ==> !Free(q, order[i], server)
  {
    if order == [] then -1
    else if Free(q, order[|order| - 1], server) then |order| - 1
    else LastFree(q, order[..|order| - 1], server)
  }

  // ----- the operations, each atomic under the queue's lock -----

  function Add(q: Queue, segment: Segment): Queue
  {
    q.(order := q.order + [q.next], elements := q.elements[q.next := Element(q.taskId, segment, {}, {})],
      next := q.next + 1)
  }

  /** Gives the element at position `i` to a server and moves it to the front. */
  function Give(q: Queue, i: nat, server: Server): Queue
    requires i < |q.order| && q.order[i] in q.elements
  {
    var id := q.order[i];
    var e := q.elements[id];
    q.(order := [id] + Without(q.order, id), elements := q.elements[id := e.(servers := e.servers + {server})])
  }

  function Remove(q: Queue, id: nat): Queue
  {
    q.(order := Without(q.order, id))
  }

  function RemoveError(q: Queue, id: nat): Queue
  {
    Remove(q, id).(error := true)
  }

  /** Records the error of a queued element; a dead handle records nothing. */
  function Record(q: Queue, id: nat, server: Server): Queue
  {
    if id in q.order && id in q.elements
    then q.(elements := q.elements[id := q.elements[id].(errors := q.elements[id].errors + {server})])
    else q
  }

  function ErrorCount(q: Queue, id: nat): nat
  {
    if id in q.order && id in q.elements then |q.elements[id].errors| else 0
  }

  function Start(q: Queue, taskId: nat): Queue { q.(stopped := false, error := false, taskId := taskId) }

  function Stop(q: Queue): Queue { q.(stopped := true, error := false) }

  // ----- the object -----

  class QueueP2P {
    var order: seq<nat>
    var elements: map<nat, Element>
    var isStopped: bool
    var isError: bool
    var taskId: nat
    var next: nat

    ghost function Value(): Queue
      reads this
    {
      Queue(order, elements, isStopped, isError, taskId, next)
    }

    ghost predicate Valid()
      reads this
    {
      forall id :: id in order ==> id in elements
    }

    constructor ()
      ensures Value() == EMPTY_QUEUE && Valid()
    {
      order, elements, isStopped, isError, taskId, next := [], map[], true, false, 0, 0;
    }

    method AddElement(segment: Segment) returns (ok: bool)
      requires Valid()
      modifies this
      ensures Valid() && ok == !old(isStopped)
      ensures Value() == if ok then Add(old(Value()), segment) else old(Value())
    {
      if isStopped { return false; }
      order, elements, next := order + [next], elements[next := Element(taskId, segment, {}, {})], next + 1;
      return true;
    }

    /** One pass of the waiting loop. `closed`: the task is over or another one runs; otherwise `id` is the element
        given out, or there is none yet and the caller waits. */
    method GetElement(server: Server, task: nat) returns (closed: bool, found: bool, id: nat)
      requires Valid() && task <= taskId
      modifies this
      ensures Valid()
      ensures closed == (task != old(taskId) || old(isStopped))
      ensures found <==> !closed && exists x :: x in old(order) && Free(old(Value()), x, server)
      ensures found ==> var q := old(Value()); var i := LastFree(q, q.order, server);
                        i >= 0 && id == q.order[i] && Value() == Give(q, i, server)
      ensures !found ==> Value() == old(Value())
    {
      closed, found, id := task != taskId || isStopped, false, 0;
      if closed { return; }
      ghost var q := Value();
      var i := |order|;
      while i > 0
        invariant 0 <= i <= |order|
        invariant LastFree(q, order, server) == LastFree(q, order[..i], server)
        invariant forall j :: i <= j < |order| ==> !Free(q, order[j], server)
      {
        i := i - 1;
        assert order[..i + 1][..i] == order[..i];
        var x := order[i];
        if server !in elements[x].servers {
          assert Free(q, order[i], server);
          found, id := true, x;
          var e := elements[x];
          elements := elements[x := e.(servers := e.servers + {server})];
          order := [x] + Without(order, x);
          return;
        }
      }
    }

    method RemoveElement(id: nat)
      requires Valid()
      modifies this
      ensures Valid() && Value() == Remove(old(Value()), id)
    {
      order := Without(order, id);
    }

    method RemoveElementError(id: nat)
      requires Valid()
      modifies this
      ensures Valid() && Value() == RemoveError(old(Value()), id)
    {
      order := Without(order, id);
      isError := true;
    }

    method ErrorElement(id: nat, server: Server) returns (count: nat)
      requires Valid()
      modifies this
      ensures Valid() && Value() == Record(old(Value()), id, server) && count == ErrorCount(Value(), id)
    {
      if id !in order { return 0; }
      var e := elements[id];
      elements := elements[id := e.(errors := e.errors + {server})];
      count := |elements[id].errors|;
    }
  }
}
