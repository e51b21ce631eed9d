/** Bounded queues with three overflow policies, and output ports that feed several of them. */
module Queues {
  import opened Statuses

  datatype OverflowPolicy = Block | DropOldest | DropNewest

  /** The abstract value of a bounded queue. */
  datatype Queue<T> = Queue(values: seq<T>, capacity: nat, policy: OverflowPolicy, dropped: nat)

  function PushCheck<T>(q: Queue<T>): StatusCode {
    if q.capacity == 0 then InvalidState
    else if |q.values| == q.capacity && q.policy.Block? then WouldBlock
    else OkStatus
  }

  function Pushed<T>(q: Queue<T>, v: T): (StatusCode, Queue<T>) {
    if !PushCheck(q).OkStatus? then (PushCheck(q), q)
    else if |q.values| == q.capacity then
      if q.policy.DropNewest? then (OkStatus, q.(dropped := q.dropped + 1))
      else (OkStatus, q.(values := q.values[1..] + [v], dropped := q.dropped + 1))
    else (OkStatus, q.(values := q.values + [v]))
  }

  function Popped<T>(q: Queue<T>): (Result<T>, Queue<T>) {
    if q.values == [] then (Failure(NotFound), q)
    else (Success(q.values[0]), q.(values := q.values[1..]))
  }

  /** What a producer that ignores the returned statuses leaves behind after offering all of `vs`. */
  function PushAll<T>(q: Queue<T>, vs: seq<T>): Queue<T>
    decreases |vs|
  {
    if vs == [] then q else Pushed(PushAll(q, vs[..|vs| - 1]), vs[|vs| - 1]).1
  }

  /**
   * The window a policy promises to keep of everything offered to an empty queue: the oldest
   * elements for Block and DropNewest, the newest ones for DropOldest.
   */
  function Window<T>(policy: OverflowPolicy, capacity: nat, vs: seq<T>): seq<T> {
    if |vs| <= capacity then vs
    else if policy.DropOldest? then vs[|vs| - capacity..]
    else vs[..capacity]
  }

  /** The value of a queue that was offered all of `vs` while empty. */
  function Kept<T>(capacity: nat, policy: OverflowPolicy, vs: seq<T>): Queue<T> {
    Queue(Window(policy, capacity, vs), capacity, policy,
          if policy.Block? || |vs| <= capacity then 0 else |vs| - capacity)
  }

  lemma PushKeepsWindow<T>(capacity: nat, policy: OverflowPolicy, vs: seq<T>, v: T)
    requires capacity > 0
    ensures Pushed(Kept(capacity, policy, vs), v).1 == Kept(capacity, policy, vs + [v])
  {
    if |vs| >= capacity {
      assert (vs + [v])[..capacity] == vs[..capacity];
      assert (vs + [v])[|vs| + 1 - capacity..] == vs[|vs| - capacity..][1..] + [v];
    }
  }

  lemma {:induction false} PushAllKeepsWindow<T>(capacity: nat, policy: OverflowPolicy, vs: seq<T>)
    requires capacity > 0
    ensures PushAll(Queue([], capacity, policy, 0), vs) == Kept(capacity, policy, vs)
  {
    if vs == [] {
      assert Kept(capacity, policy, vs) == Queue([], capacity, policy, 0);
    } else {
      var init, v := vs[..|vs| - 1], vs[|vs| - 1];
      PushAllKeepsWindow(capacity, policy, init);
      PushKeepsWindow(capacity, policy, init, v);
      assert vs == init + [v];
    }
  }

  /** One queue object; the input port of the consumer and the output port of the producer share it. */
  class BoundedQueue<T> {
    const capacity: nat
    const policy: OverflowPolicy
    var values: seq<T>
    var droppedCount: nat

    function View(): Queue<T>
      reads this
    {
      Queue(values, capacity, policy, droppedCount)
    }

    constructor (capacity: nat, policy: OverflowPolicy)
      ensures View() == Queue([], capacity, policy, 0)
    {
      this.capacity := capacity;
      this.policy := policy;
      values := [];
      droppedCount := 0;
    }

    method PreflightPush() returns (status: StatusCode)
      ensures status == PushCheck(View())
    {
      if capacity == 0 {
        return InvalidState;
      }
      if |values| == capacity && policy == Block {
        return WouldBlock;
      }
      return OkStatus;
    }

    method Push(v: T) returns (status: StatusCode)
      modifies this
      ensures (status, View()) == Pushed(old(View()), v)
    {
      status := PreflightPush();
      if status != OkStatus {
        return;
      }
      if |values| == capacity {
        if policy == DropNewest {
          droppedCount := droppedCount + 1;
          return OkStatus;
        }
        values := values[1..];
        droppedCount := droppedCount + 1;
      }
      values := values + [v];
    }

    method Pop() returns (r: Result<T>)
      modifies this
      ensures (r, View()) == Popped(old(View()))
    {
      if values == [] {
        return Failure(NotFound);
      }
      r := Success(values[0]);
      values := values[1..];
    }
  }

  /** The value of an output port: the queues it is connected to, in connection order. */
  type Port<T> = seq<Queue<T>>

  function SendCheck<T>(port: Port<T>): StatusCode {
    if port == [] then OkStatus
    else if !PushCheck(port[0]).OkStatus? then PushCheck(port[0])
    else SendCheck(port[1..])
  }

  function Sent<T>(port: Port<T>, v: T): (r: (StatusCode, Port<T>))
    ensures |r.1| == |port|
  {
    if port == [] then (InvalidState, port)
    else if !SendCheck(port).OkStatus? then (SendCheck(port), port)
    else (OkStatus, seq(|port|, i requires 0 <= i < |port| => Pushed(port[i], v).1))
  }

  lemma {:induction false} SendCheckIff<T>(port: Port<T>)
    ensures SendCheck(port).OkStatus? <==> forall i :: 0 <= i < |port| ==> PushCheck(port[i]).OkStatus?
    ensures SendCheck(port) in {OkStatus, InvalidState, WouldBlock}
    ensures !SendCheck(port).OkStatus? ==>
              exists i :: 0 <= i < |port| && PushCheck(port[i]) == SendCheck(port)
  {
    if port != [] {
      SendCheckIff(port[1..]);
      if PushCheck(port[0]).OkStatus? {
        assert forall i :: 0 < i < |port| ==> port[i] == port[1..][i - 1];
        if SendCheck(port[1..]).OkStatus? {
          forall i | 0 <= i < |port|
            ensures PushCheck(port[i]).OkStatus?
          {
            if i > 0 { assert port[i] == port[1..][i - 1]; }
          }
        } else {
          var j :| 0 <= j < |port[1..]| && PushCheck(port[1..][j]) == SendCheck(port[1..]);
          assert PushCheck(port[j + 1]) == SendCheck(port);
        }
      }
    }
  }

  /**
   * Fan-out is all or nothing: a send that fails leaves every queue as it was, and one that succeeds
   * reached every consumer without any push being refused.
   */
  lemma SendIsAtomic<T>(port: Port<T>, v: T)
    ensures var (status, after) := Sent(port, v);
            && (!status.OkStatus? ==> after == port)
            && (status.OkStatus? <==>
                  port != [] && forall i :: 0 <= i < |port| ==> Pushed(port[i], v).0.OkStatus?)
            && (status.OkStatus? ==>
                  forall i :: 0 <= i < |port| && port[i].policy.Block? ==>
                    after[i].values == port[i].values + [v])
  {
    SendCheckIff(port);
  }

  class OutputPort<T> {
    var connections: seq<BoundedQueue<T>>

    constructor ()
      ensures connections == []
    {
      connections := [];
    }

    /** Every connect call installs a fresh queue, so no queue occurs twice. */
    ghost predicate Valid()
      reads this
    {
      forall i, j :: 0 <= i < j < |connections| ==> connections[i] != connections[j]
    }

    ghost function View(): Port<T>
      reads this, connections
    {
      seq(|connections|, i requires 0 <= i < |connections| reads this, connections => connections[i].View())
    }

    /** Whether every consumer would take a value, or the answer of the first that would not. */
    method Preflight() returns (status: StatusCode)
      ensures status == SendCheck(View())
    {
      var index := 0;
      while index < |connections|
        invariant 0 <= index <= |connections|
        invariant SendCheck(View()[index..]) == SendCheck(View())
      {
        assert View()[index..][0] == View()[index] == connections[index].View();
        assert View()[index..][1..] == View()[index + 1..];
        var preflight := connections[index].PreflightPush();
        if preflight != OkStatus {
          return preflight;
        }
        index := index + 1;
      }
      return OkStatus;
    }

    method PushToAll(v: T) returns (status: StatusCode)
      requires Valid() && forall i :: 0 <= i < |connections| ==> PushCheck(connections[i].View()).OkStatus?
      modifies connections
      ensures status.OkStatus?
      ensures forall i :: 0 <= i < |connections| ==> connections[i].View() == Pushed(old(connections[i].View()), v).1
    {
      var index := 0;
      while index < |connections|
        invariant 0 <= index <= |connections|
        invariant forall i :: 0 <= i < index ==> connections[i].View() == Pushed(old(connections[i].View()), v).1
        invariant forall i :: index <= i < |connections| ==> connections[i].View() == old(connections[i].View())
      {
        status := connections[index].Push(v);
        if status != OkStatus {
          return;
        }
        index := index + 1;
      }
      return OkStatus;
    }

    method Send(v: T) returns (status: StatusCode)
      requires Valid()
      modifies connections
      ensures (status, View()) == Sent(old(View()), v)
    {
      if |connections| == 0 {
        return InvalidState;
      }
      status := Preflight();
      if status != OkStatus {
        return;
      }
      ghost var before := View();
      SendCheckIff(before);
      assert forall i :: 0 <= i < |connections| ==> before[i] == connections[i].View();
      hide SendCheck, PushCheck, Pushed;
      status := PushToAll(v);
      assert View() == Sent(before, v).1;
    }
  }

  /** The consumer side: its queue is made when it is connected. */
  class InputPort<T> {
    const capacity: nat
    const policy: OverflowPolicy
    var queue: Option<BoundedQueue<T>>

    constructor (capacity: nat, policy: OverflowPolicy)
      ensures this.capacity == capacity && this.policy == policy && queue.None?
    {
      this.capacity, this.policy, queue := capacity, policy, None;
    }
  }

  /** Connects a consumer that has no upstream yet; a consumer whose capacity is zero is refused. */
  method Connect<T>(output: OutputPort<T>, input: InputPort<T>) returns (status: StatusCode)
    requires output.Valid()
    modifies output, input
    ensures output.Valid()
    ensures status == if old(input.queue).Some? then AlreadyExists
                      else if input.capacity == 0 then InvalidArgument else OkStatus
    ensures !status.OkStatus? ==> output.connections == old(output.connections) && input.queue == old(input.queue)
    ensures status.OkStatus? ==>
              && input.queue.Some? && fresh(input.queue.value)
              && input.queue.value.View() == Queue([], input.capacity, input.policy, 0)
              && output.connections == old(output.connections) + [input.queue.value]
  {
    if input.queue.Some? {
      return AlreadyExists;
    }
    if input.capacity == 0 {
      return InvalidArgument;
    }
    var queue := new BoundedQueue<T>(input.capacity, input.policy);
    input.queue := Some(queue);
    output.connections := output.connections + [queue];
    return OkStatus;
  }
}
