/**
 * The processor and encoder nodes around a backend. The two node classes of the program share their
 * tick, stop and reset text, so one node stands for both; only the options of its backend differ.
 */
module BackendNodes {
  import opened Statuses
  import opened Queues
  import opened Backends
  import opened NodeStates

  datatype Node = Node(pendingIn: Option<Frame>, pendingOut: Option<Frame>, drainStarted: bool, backend: Backend)

  /** One call of a node: its status, and what it leaves in the node and in the queues on both sides. */
  datatype Turn = Turn(status: StatusCode, node: Node, input: Queue<Frame>, output: Port<Frame>)

  function Flush(n: Node, input: Queue<Frame>, output: Port<Frame>): Turn {
    if n.pendingOut.None? then Turn(OkStatus, n, input, output)
    else
      var (status, after) := Sent(output, n.pendingOut.value);
      Turn(status, if status.OkStatus? then n.(pendingOut := None) else n, input, after)
  }

  /** Hands a received frame on; an emission during a stop always asks for another turn. */
  function Emit(n: Node, f: Frame, input: Queue<Frame>, output: Port<Frame>): Turn {
    var t := Flush(n.(pendingOut := Some(f)), input, output);
    if t.status.OkStatus? then t.(status := WouldBlock) else t
  }

  function Feed(n: Node, input: Queue<Frame>, output: Port<Frame>): Turn {
    if n.pendingIn.Some? then
      var (status, b) := Submitted(n.backend, n.pendingIn.value);
      var m := n.(backend := b);
      Turn(status, if status.OkStatus? then m.(pendingIn := None) else m, input, output)
    else
      var (popped, rest) := Popped(input);
      if popped.Failure? then Turn(OkStatus, n, rest, output)
      else
        var (status, b) := Submitted(n.backend, popped.value);
        var m := n.(backend := b);
        Turn(status, if status.WouldBlock? then m.(pendingIn := Some(popped.value)) else m, rest, output)
  }

  function Ticked(n: Node, input: Queue<Frame>, output: Port<Frame>): Turn {
    var t := Flush(n, input, output);
    if !t.status.OkStatus? then t
    else
      var (r, b) := Received(t.node.backend);
      var m := t.node.(backend := b);
      match r
      case Success(f) =>
        var u := Flush(m.(pendingOut := Some(f)), input, t.output);
        if u.status.OkStatus? then Feed(u.node, input, u.output) else u
      case Failure(code) =>
        if TemporarilyEmpty(code) then Feed(m, input, t.output) else Turn(code, m, input, t.output)
  }

  /** The part of a stop that empties the pending input slot before anything else. */
  function DrainPending(n: Node, f: Frame, input: Queue<Frame>, output: Port<Frame>): Turn {
    var (status, b) := Submitted(n.backend, f);
    var m := n.(backend := b);
    if status.OkStatus? then Turn(WouldBlock, m.(pendingIn := None), input, output)
    else if !status.WouldBlock? then Turn(status, m, input, output)
    else
      var (r, c) := Received(b);
      match r
      case Success(g) => Emit(m.(backend := c), g, input, output)
      case Failure(code) =>
        Turn(if code.EndOfStream? then InvalidState else if TemporarilyEmpty(code) then WouldBlock else code,
             m.(backend := c), input, output)
  }

  function DrainBackend(n: Node, input: Queue<Frame>, output: Port<Frame>): Turn {
    var (r, b) := Received(n.backend);
    match r
    case Success(f) => Emit(n.(backend := b), f, input, output)
    case Failure(code) => Turn(code, n.(backend := b), input, output)
  }

  /** With nothing left to take in, the backend hands out what it has, and then its drain begins. */
  function BeginDrain(n: Node, input: Queue<Frame>, output: Port<Frame>): Turn {
    var (r, b) := Received(n.backend);
    var m := n.(backend := b);
    match r
    case Success(f) => Emit(m, f, input, output)
    case Failure(code) =>
      if !TemporarilyEmpty(code) then Turn(code, m, input, output)
      else
        var (begun, c) := DrainBegun(b);
        if !begun.OkStatus? then Turn(begun, m.(backend := c), input, output)
        else DrainBackend(m.(backend := c, drainStarted := true), input, output)
  }

  /** The part of a stop that runs with both slots empty and the backend not yet draining. */
  function DrainInput(n: Node, input: Queue<Frame>, output: Port<Frame>): Turn {
    var (popped, rest) := Popped(input);
    match popped
    case Success(f) =>
      var (status, b) := Submitted(n.backend, f);
      var m := n.(backend := b, pendingIn := if status.OkStatus? then None else Some(f));
      Turn(if status.OkStatus? then WouldBlock else status, m, rest, output)
    case Failure(_) => BeginDrain(n, rest, output)
  }

  function StopTurn(n: Node, input: Queue<Frame>, output: Port<Frame>): Turn {
    var t := Flush(n, input, output);
    if !t.status.OkStatus? then t
    else if t.node.drainStarted then DrainBackend(t.node, input, t.output)
    else if t.node.pendingIn.Some? then DrainPending(t.node, t.node.pendingIn.value, input, t.output)
    else DrainInput(t.node, input, t.output)
  }

  function ResetTurn(n: Node): (StatusCode, Node) {
    var (status, b) := WasReset(n.backend);
    (status, Node(None, None, false, b))
  }

  // ---------------------------------------------------------------- conservation

  /** Everything inside the node, oldest first. */
  function Inside(n: Node): seq<Frame> {
    Slot(n.pendingOut) + n.backend.queue + Slot(n.pendingIn)
  }

  /** Every consumer of the port blocks its producer when it is full. */
  predicate Blocking(output: Port<Frame>) {
    forall i :: 0 <= i < |output| ==> output[i].policy.Block?
  }

  predicate Appended(before: Port<Frame>, after: Port<Frame>, d: seq<Frame>) {
    && |after| == |before|
    && forall i :: 0 <= i < |before| ==> after[i] == before[i].(values := before[i].values + d)
  }

  /** A turn moved frames only forwards: `d` left the node, and nothing was lost, copied or reordered. */
  predicate Conserves(n: Node, input: Queue<Frame>, output: Port<Frame>, t: Turn, d: seq<Frame>) {
    && Appended(output, t.output, d)
    && d + Inside(t.node) + t.input.values == Inside(n) + input.values
    && t.input == input.(values := t.input.values)
    && t.node.backend.options == n.backend.options
    && t.node.backend.resetBlocked == n.backend.resetBlocked
  }

  lemma FlushConserves(n: Node, input: Queue<Frame>, output: Port<Frame>) returns (d: seq<Frame>)
    requires Blocking(output)
    ensures var t := Flush(n, input, output);
            && Conserves(n, input, output, t, d)
            && Blocking(t.output)
            && t.node.backend == n.backend && t.node.pendingIn == n.pendingIn
            && (t.status.OkStatus? <==> t.node.pendingOut.None?)
            && t.node.drainStarted == n.drainStarted
            && (!t.status.OkStatus? ==> t.node == n && t.output == output && d == [])
  {
    var t := Flush(n, input, output);
    if n.pendingOut.Some? {
      SendIsAtomic(output, n.pendingOut.value);
      SendCheckIff(output);
      if t.status.OkStatus? {
        d := [n.pendingOut.value];
        assert d + Inside(t.node) == Inside(n);
        return;
      }
    }
    d := [];
    assert Appended(output, t.output, d);
  }

  lemma Compose(n: Node, input: Queue<Frame>, output: Port<Frame>, t: Turn, u: Turn,
                d: seq<Frame>, e: seq<Frame>) returns (f: seq<Frame>)
    requires Conserves(n, input, output, t, d)
    requires Conserves(t.node, t.input, t.output, u, e)
    ensures f == d + e
    ensures Conserves(n, input, output, u, f)
  {
    f := d + e;
    forall i | 0 <= i < |output|
      ensures u.output[i] == output[i].(values := output[i].values + f)
    {
      assert (output[i].values + d) + e == output[i].values + f;
    }
    calc {
      f + Inside(u.node) + u.input.values;
      d + (e + Inside(u.node) + u.input.values);
      d + (Inside(t.node) + t.input.values);
      d + Inside(t.node) + t.input.values;
      Inside(n) + input.values;
    }
  }

  /** Taking one frame out of the backend leaves it at the head of the node. */
  lemma ReceiveConserves(n: Node, input: Queue<Frame>, output: Port<Frame>)
    requires n.pendingOut.None?
    ensures var (r, b) := Received(n.backend);
            var m := n.(backend := b, pendingOut := if r.Success? then Some(r.value) else None);
            Conserves(n, input, output, Turn(OkStatus, m, input, output), [])
  {
  }

  lemma FeedPending(n: Node, input: Queue<Frame>, output: Port<Frame>)
    requires n.pendingIn.Some?
    ensures var t := Feed(n, input, output);
            Benign(t.status) ==> Conserves(n, input, output, t, [])
  {
    var t := Feed(n, input, output);
    assert Benign(t.status) ==> Inside(t.node) == Inside(n);
  }

  lemma FeedInput(n: Node, input: Queue<Frame>, output: Port<Frame>)
    requires n.pendingIn.None?
    ensures var t := Feed(n, input, output);
            Benign(t.status) ==> Conserves(n, input, output, t, [])
  {
    var t := Feed(n, input, output);
    if input.values != [] && Benign(t.status) {
      assert input.values == [input.values[0]] + t.input.values;
      assert Inside(t.node) == Inside(n) + [input.values[0]];
    }
  }

  /**
   * When the backend refuses a frame for good, one that was taken from the queue for it is lost, one that waited
   * before goes on waiting, and the backlog is lost with the device only.
   */
  lemma FeedFails(n: Node, input: Queue<Frame>, output: Port<Frame>)
    requires !Benign(Feed(n, input, output).status)
    ensures var t := Feed(n, input, output);
            && t.output == output && t.node.pendingOut == n.pendingOut && t.node.pendingIn == n.pendingIn
            && t.node.backend.queue == (if t.status.DeviceLost? then [] else n.backend.queue)
            && t.input.values == (if n.pendingIn.Some? then input.values else input.values[1..])
  {
  }

  /** A reset that is granted leaves a node as it was made, whatever it held; another leaves it the backlog. */
  lemma ResetStartsOver(n: Node)
    ensures var (status, after) := ResetTurn(n);
            && after == Node(None, None, false, after.backend) && after.backend.options == n.backend.options
            && (status.OkStatus? ==>
                  && Inside(after) == []
                  && after.backend == NewRun(n.backend.options).backend.(resetBlocked := n.backend.resetBlocked))
            && (!status.OkStatus? ==>
                  status.WouldBlock? && Inside(after) == n.backend.queue && ResetTurn(after).0.OkStatus?)
  {
    if !ResetTurn(n).0.OkStatus? {
      assert Inside(ResetTurn(n).1) == [] + n.backend.queue + [];
    }
  }

  lemma FeedConserves(n: Node, input: Queue<Frame>, output: Port<Frame>)
    ensures var t := Feed(n, input, output);
            Benign(t.status) ==> Conserves(n, input, output, t, [])
  {
    if n.pendingIn.Some? { FeedPending(n, input, output); } else { FeedInput(n, input, output); }
  }

  lemma EmitConserves(n: Node, f: Frame, input: Queue<Frame>, output: Port<Frame>) returns (d: seq<Frame>)
    requires Blocking(output)
    ensures Conserves(n.(pendingOut := Some(f)), input, output, Emit(n, f, input, output), d)
  {
    d := FlushConserves(n.(pendingOut := Some(f)), input, output);
  }

  /** A tick that ends in a benign status loses, copies and reorders nothing. */
  lemma TickConserves(n: Node, input: Queue<Frame>, output: Port<Frame>) returns (d: seq<Frame>)
    requires Blocking(output)
    requires Benign(Ticked(n, input, output).status)
    ensures Conserves(n, input, output, Ticked(n, input, output), d)
  {
    d := FlushConserves(n, input, output);
    var t := Flush(n, input, output);
    if t.status.OkStatus? {
      ReceiveConserves(t.node, input, t.output);
      var (r, b) := Received(t.node.backend);
      var m := t.node.(backend := b, pendingOut := if r.Success? then Some(r.value) else None);
      var held := Turn(OkStatus, m, input, t.output);
      d := Compose(n, input, output, t, held, d, []);
      if r.Success? {
        var e := FlushConserves(m, input, t.output);
        var u := Flush(m, input, t.output);
        d := Compose(n, input, output, held, u, d, e);
        if u.status.OkStatus? {
          FeedConserves(u.node, input, u.output);
          d := Compose(n, input, output, u, Feed(u.node, input, u.output), d, []);
        }
      } else if TemporarilyEmpty(r.code) {
        FeedConserves(m, input, t.output);
        d := Compose(n, input, output, held, Feed(m, input, t.output), d, []);
      }
    }
  }

  lemma DrainBackendConserves(n: Node, input: Queue<Frame>, output: Port<Frame>) returns (d: seq<Frame>)
    requires Blocking(output) && n.pendingOut.None?
    ensures Conserves(n, input, output, DrainBackend(n, input, output), d)
  {
    ReceiveConserves(n, input, output);
    var (r, b) := Received(n.backend);
    d := [];
    if r.Success? {
      var e := EmitConserves(n.(backend := b), r.value, input, output);
      var held := Turn(OkStatus, n.(backend := b, pendingOut := Some(r.value)), input, output);
      d := Compose(n, input, output, held, DrainBackend(n, input, output), [], e);
    }
  }

  lemma DrainPendingConserves(n: Node, input: Queue<Frame>, output: Port<Frame>) returns (d: seq<Frame>)
    requires Blocking(output) && n.pendingOut.None? && n.pendingIn.Some?
    requires !DrainPending(n, n.pendingIn.value, input, output).status.DeviceLost?
    ensures Conserves(n, input, output, DrainPending(n, n.pendingIn.value, input, output), d)
  {
    d := [];
    var t := DrainPending(n, n.pendingIn.value, input, output);
    var (status, b) := Submitted(n.backend, n.pendingIn.value);
    if !status.WouldBlock? {
      assert Inside(t.node) == Inside(n);
    } else {
      d := DrainBackendConserves(n, input, output);
    }
  }

  /** The part of a stop that takes a frame out of the input queue. */
  lemma DrainPopConserves(n: Node, input: Queue<Frame>, output: Port<Frame>)
    requires n.pendingOut.None? && n.pendingIn.None? && input.values != []
    requires !DrainInput(n, input, output).status.DeviceLost?
    ensures Conserves(n, input, output, DrainInput(n, input, output), [])
  {
    var s := DrainInput(n, input, output);
    var first, rest := input.values[0], input.values[1..];
    assert input.values == [first] + rest;
    assert Inside(s.node) == Inside(n) + [first];
    assert [] + Inside(s.node) + rest == Inside(n) + input.values;
  }

  lemma DrainInputConserves(n: Node, input: Queue<Frame>, output: Port<Frame>) returns (d: seq<Frame>)
    requires Blocking(output) && n.pendingOut.None? && n.pendingIn.None?
    requires !DrainInput(n, input, output).status.DeviceLost?
    ensures Conserves(n, input, output, DrainInput(n, input, output), d)
  {
    d := [];
    if input.values != [] {
      DrainPopConserves(n, input, output);
    } else {
      var (r, b) := Received(n.backend);
      if r.Failure? && TemporarilyEmpty(r.code) {
        d := DrainBackendConserves(n.(backend := DrainBegun(b).1, drainStarted := true), input, output);
      } else {
        d := DrainBackendConserves(n, input, output);
      }
    }
  }

  /** A stop step loses, copies and reorders nothing, whatever its status, unless the device is lost. */
  lemma StopConserves(n: Node, input: Queue<Frame>, output: Port<Frame>) returns (d: seq<Frame>)
    requires Blocking(output)
    requires !StopTurn(n, input, output).status.DeviceLost?
    ensures Conserves(n, input, output, StopTurn(n, input, output), d)
  {
    d := FlushConserves(n, input, output);
    var t := Flush(n, input, output);
    if t.status.OkStatus? {
      var e := [];
      if t.node.drainStarted {
        e := DrainBackendConserves(t.node, input, t.output);
      } else if t.node.pendingIn.Some? {
        e := DrainPendingConserves(t.node, input, t.output);
      } else {
        e := DrainInputConserves(t.node, input, t.output);
      }
      d := Compose(n, input, output, t, StopTurn(n, input, output), d, e);
    }
  }

  // ---------------------------------------------------------------- modes and progress

  predicate Conform(s: seq<Frame>) {
    forall f :: f in s ==> f.conforms
  }

  lemma ConformSplits(a: seq<Frame>, b: seq<Frame>)
    ensures Conform(a + b) <==> Conform(a) && Conform(b)
  {
    assert forall f :: f in a + b <==> f in a || f in b;
  }

  /** Frames inside the node and waiting for it all meet the configured format. */
  predicate Sound(n: Node, input: Queue<Frame>) {
    && |n.backend.queue| <= n.backend.options.queueCapacity
    && Conform(Inside(n)) && Conform(input.values)
  }

  /** The mode of a running node: its backend takes frames and no drain has begun. */
  predicate Active(n: Node) {
    !n.drainStarted && CanSubmit(n.backend.state)
  }

  /** The mode of a node whose stop has begun: once its backend drains, nothing can enter it any more. */
  predicate Closing(n: Node, input: Queue<Frame>) {
    if n.drainStarted then n.backend.state.Draining? && n.pendingIn.None? && input.values == []
    else CanSubmit(n.backend.state)
  }

  /** The mode of a stopped node: it and its input queue are empty. */
  predicate Finished(n: Node, input: Queue<Frame>) {
    Inside(n) == [] && input.values == [] && n.backend.state.Stopped?
  }

  lemma SoundAfter(n: Node, input: Queue<Frame>, output: Port<Frame>, t: Turn, d: seq<Frame>)
    requires Sound(n, input) && Conserves(n, input, output, t, d)
    requires |t.node.backend.queue| <= t.node.backend.options.queueCapacity
    ensures Sound(t.node, t.input) && Conform(d)
  {
    ConformSplits(Inside(n), input.values);
    ConformSplits(d + Inside(t.node), t.input.values);
    ConformSplits(d, Inside(t.node));
  }

  /** A flush touches the pending output slot only. */
  lemma FlushShape(n: Node, input: Queue<Frame>, output: Port<Frame>)
    ensures var t := Flush(n, input, output);
            t.input == input && t.node == n.(pendingOut := t.node.pendingOut)
            && (t.status.OkStatus? <==> t.node.pendingOut.None?)
            && (!t.status.OkStatus? ==> t.node == n && t.status in {WouldBlock, InvalidState})
  {
    SendCheckIff(output);
  }

  lemma FeedMode(n: Node, input: Queue<Frame>, output: Port<Frame>)
    requires Active(n) && |n.backend.queue| <= n.backend.options.queueCapacity
    ensures var t := Feed(n, input, output);
            Benign(t.status) ==>
              Active(t.node) && |t.node.backend.queue| <= t.node.backend.options.queueCapacity
  {
  }

  lemma TickMode(n: Node, input: Queue<Frame>, output: Port<Frame>)
    requires Active(n) && |n.backend.queue| <= n.backend.options.queueCapacity
    ensures var t := Ticked(n, input, output);
            Benign(t.status) ==>
              Active(t.node) && |t.node.backend.queue| <= t.node.backend.options.queueCapacity
  {
    FlushShape(n, input, output);
    var t := Flush(n, input, output);
    if t.status.OkStatus? {
      var (r, b) := Received(t.node.backend);
      var m := t.node.(backend := b);
      if r.Success? {
        FlushShape(m.(pendingOut := Some(r.value)), input, t.output);
        var u := Flush(m.(pendingOut := Some(r.value)), input, t.output);
        FeedMode(u.node, input, u.output);
      } else {
        FeedMode(m, input, t.output);
      }
    }
  }

  lemma TickKeepsMode(n: Node, input: Queue<Frame>, output: Port<Frame>) returns (d: seq<Frame>)
    requires Blocking(output) && Active(n) && Sound(n, input)
    requires Benign(Ticked(n, input, output).status)
    ensures var t := Ticked(n, input, output);
            Conserves(n, input, output, t, d) && Active(t.node) && Sound(t.node, t.input) && Conform(d)
  {
    d := TickConserves(n, input, output);
    var t := Ticked(n, input, output);
    TickMode(n, input, output);
    SoundAfter(n, input, output, t, d);
  }

  lemma EmitShape(n: Node, f: Frame, input: Queue<Frame>, output: Port<Frame>)
    ensures var t := Emit(n, f, input, output);
            t.input == input && t.node == n.(pendingOut := t.node.pendingOut)
            && t.status in {WouldBlock, InvalidState}
  {
    FlushShape(n.(pendingOut := Some(f)), input, output);
  }

  /** What a stop step leaves of the mode of a node, given that its output slot is empty. */
  predicate Closes(before: Node, t: Turn) {
    Benign(t.status) ==>
      && |t.node.backend.queue| <= before.backend.options.queueCapacity
      && if TemporarilyEmpty(t.status) then Closing(t.node, t.input)
         else t.node.backend.state.Stopped? && Inside(t.node) == [] && t.input.values == []
  }

  lemma DrainBackendMode(n: Node, input: Queue<Frame>, output: Port<Frame>)
    requires n.drainStarted && Closing(n, input) && n.pendingOut.None?
    requires |n.backend.queue| <= n.backend.options.queueCapacity
    ensures Closes(n, DrainBackend(n, input, output))
  {
    var (r, b) := Received(n.backend);
    if r.Success? { EmitShape(n.(backend := b), r.value, input, output); }
  }

  lemma DrainPendingMode(n: Node, input: Queue<Frame>, output: Port<Frame>)
    requires !n.drainStarted && Closing(n, input) && n.pendingOut.None? && n.pendingIn.Some?
    requires |n.backend.queue| <= n.backend.options.queueCapacity
    ensures Closes(n, DrainPending(n, n.pendingIn.value, input, output))
  {
    var (status, b) := Submitted(n.backend, n.pendingIn.value);
    var (r, c) := Received(b);
    if r.Success? { EmitShape(n.(backend := c), r.value, input, output); }
  }

  lemma DrainInputMode(n: Node, input: Queue<Frame>, output: Port<Frame>)
    requires !n.drainStarted && Closing(n, input) && n.pendingOut.None? && n.pendingIn.None?
    requires |n.backend.queue| <= n.backend.options.queueCapacity
    ensures Closes(n, DrainInput(n, input, output))
  {
    if input.values == [] {
      var (r, b) := Received(n.backend);
      if r.Success? {
        EmitShape(n.(backend := b), r.value, input, output);
      } else {
        DrainBackendMode(n.(backend := DrainBegun(b).1, drainStarted := true), input, output);
      }
    }
  }

  lemma StopMode(n: Node, input: Queue<Frame>, output: Port<Frame>)
    requires Closing(n, input) && |n.backend.queue| <= n.backend.options.queueCapacity
    ensures Closes(n, StopTurn(n, input, output))
  {
    FlushShape(n, input, output);
    var t := Flush(n, input, output);
    if t.status.OkStatus? {
      if t.node.drainStarted {
        DrainBackendMode(t.node, input, t.output);
      } else if t.node.pendingIn.Some? {
        DrainPendingMode(t.node, input, t.output);
      } else {
        DrainInputMode(t.node, input, t.output);
      }
    }
  }

  lemma StopKeepsMode(n: Node, input: Queue<Frame>, output: Port<Frame>) returns (d: seq<Frame>)
    requires Blocking(output) && Closing(n, input) && Sound(n, input)
    requires Benign(StopTurn(n, input, output).status)
    ensures var t := StopTurn(n, input, output);
            && Conserves(n, input, output, t, d) && Sound(t.node, t.input) && Conform(d)
            && (if TemporarilyEmpty(t.status) then Closing(t.node, t.input) else Finished(t.node, t.input))
  {
    d := StopConserves(n, input, output);
    var t := StopTurn(n, input, output);
    StopMode(n, input, output);
    SoundAfter(n, input, output, t, d);
  }

  /** How far the frames of a node and of its input queue still have to go inside the node. */
  function Load(n: Node, input: Queue<Frame>): nat {
    |Slot(n.pendingOut)| + 2 * |n.backend.queue| + 3 * |Slot(n.pendingIn)| + 4 * |input.values|
  }

  /** Room in the backend for one frame more than the delay holds back. */
  predicate Roomy(o: Options) {
    o.outputDelay < o.queueCapacity
  }

  predicate Blocked(n: Node, output: Port<Frame>) {
    n.pendingOut.Some? && SendCheck(output).WouldBlock?
  }

  predicate Connected(output: Port<Frame>) {
    output != [] && Blocking(output) && forall i :: 0 <= i < |output| ==> output[i].capacity > 0
  }

  lemma ConnectedSend(output: Port<Frame>)
    requires Connected(output)
    ensures SendCheck(output).OkStatus? || SendCheck(output).WouldBlock?
    ensures forall f :: Connected(Sent(output, f).1)
  {
    SendCheckIff(output);
  }

  lemma FlushProgress(n: Node, input: Queue<Frame>, output: Port<Frame>)
    requires Connected(output)
    ensures var t := Flush(n, input, output);
            && Connected(t.output)
            && (if t.status.OkStatus? then Load(t.node, input) == Load(n, input) - |Slot(n.pendingOut)|
                else t.status.WouldBlock? && Blocked(n, output))
  {
    ConnectedSend(output);
  }

  lemma FeedProgress(n: Node, input: Queue<Frame>, output: Port<Frame>)
    requires Active(n) && Sound(n, input) && n.backend.options.deviceLostAfter == 0
    ensures var t := Feed(n, input, output);
            && Benign(t.status) && Load(t.node, t.input) <= Load(n, input)
            && (Load(t.node, t.input) == Load(n, input) ==>
                  if n.pendingIn.Some? then |n.backend.queue| == n.backend.options.queueCapacity
                  else input.values == [])
  {
    if n.pendingIn.Some? { assert n.pendingIn.value in Inside(n); }
  }

  lemma ReceiveSound(n: Node, input: Queue<Frame>)
    requires Sound(n, input) && n.pendingOut.None?
    ensures var (r, b) := Received(n.backend);
            && Sound(n.(backend := b), input)
            && (r.Success? ==> Sound(n.(backend := b, pendingOut := Some(r.value)), input))
            && Load(n.(backend := b), input) == Load(n, input) - (if r.Success? then 2 else 0)
  {
  }

  lemma FlushSound(n: Node, input: Queue<Frame>, output: Port<Frame>)
    requires Sound(n, input)
    ensures Sound(Flush(n, input, output).node, input)
  {
  }

  /** A tick of a running node moves some frame forward, unless its consumer is full or it has nothing to move. */
  lemma TickProgress(n: Node, input: Queue<Frame>, output: Port<Frame>)
    requires Connected(output) && Active(n) && Sound(n, input) && n.backend.options.deviceLostAfter == 0
    ensures var t := Ticked(n, input, output);
            && Benign(t.status) && Load(t.node, t.input) <= Load(n, input)
            && (Roomy(n.backend.options) && Load(t.node, t.input) == Load(n, input) ==>
                  Blocked(n, output) || (n.pendingIn.None? && input.values == []))
  {
    FlushShape(n, input, output);
    FlushSound(n, input, output);
    FlushProgress(n, input, output);
    var t := Flush(n, input, output);
    if t.status.OkStatus? {
      ReceiveSound(t.node, input);
      var (r, b) := Received(t.node.backend);
      var m := t.node.(backend := b);
      if r.Success? {
        var held := m.(pendingOut := Some(r.value));
        FlushShape(held, input, t.output);
        FlushSound(held, input, t.output);
        FlushProgress(held, input, t.output);
        var u := Flush(held, input, t.output);
        if u.status.OkStatus? { FeedProgress(u.node, input, u.output); }
      } else {
        FeedProgress(m, input, t.output);
      }
    }
  }

  lemma EmitProgress(n: Node, f: Frame, input: Queue<Frame>, output: Port<Frame>)
    requires Connected(output) && n.pendingOut.None?
    ensures var t := Emit(n, f, input, output);
            t.status.WouldBlock? && t.input == input && Load(t.node, input) <= Load(n, input) + 1
  {
    FlushShape(n.(pendingOut := Some(f)), input, output);
    FlushProgress(n.(pendingOut := Some(f)), input, output);
  }

  lemma DrainBackendProgress(n: Node, input: Queue<Frame>, output: Port<Frame>)
    requires Connected(output) && n.pendingOut.None? && CanReceive(n.backend.state)
    ensures var t := DrainBackend(n, input, output);
            && t.input == input
            && if Received(n.backend).0.Success? then t.status.WouldBlock? && Load(t.node, input) < Load(n, input)
               else t.status == Received(n.backend).0.code && Load(t.node, input) == Load(n, input)
  {
    var (r, b) := Received(n.backend);
    if r.Success? { EmitProgress(n.(backend := b), r.value, input, output); }
  }

  /** A turn moved something forward, unless it ended the stream or the backend has no room for its delay. */
  predicate MovesOn(n: Node, input: Queue<Frame>, t: Turn) {
    && t.status in {WouldBlock, EndOfStream} && Load(t.node, t.input) <= Load(n, input)
    && (Roomy(n.backend.options) && t.status.WouldBlock? ==> Load(t.node, t.input) < Load(n, input))
  }

  lemma DrainPendingProgress(n: Node, input: Queue<Frame>, output: Port<Frame>)
    requires Connected(output) && Sound(n, input) && n.backend.options.deviceLostAfter == 0
    requires n.pendingOut.None? && n.pendingIn.Some? && CanSubmit(n.backend.state)
    ensures MovesOn(n, input, DrainPending(n, n.pendingIn.value, input, output))
  {
    assert n.pendingIn.value in Inside(n);
    var (r, b) := Received(n.backend);
    if r.Success? { EmitProgress(n.(backend := b), r.value, input, output); }
  }

  lemma DrainInputProgress(n: Node, input: Queue<Frame>, output: Port<Frame>)
    requires Connected(output) && Sound(n, input) && n.backend.options.deviceLostAfter == 0
    requires n.pendingOut.None? && n.pendingIn.None? && CanSubmit(n.backend.state)
    ensures MovesOn(n, input, DrainInput(n, input, output))
  {
    if input.values == [] {
      var (r, b) := Received(n.backend);
      if r.Success? {
        EmitProgress(n.(backend := b), r.value, input, output);
      } else {
        DrainBackendProgress(n.(backend := DrainBegun(b).1, drainStarted := true), input, output);
      }
    }
  }

  /** A stop step that asks for another turn has moved some frame forward, unless its consumer is full. */
  lemma StopProgress(n: Node, input: Queue<Frame>, output: Port<Frame>)
    requires Connected(output) && Closing(n, input) && Sound(n, input) && n.backend.options.deviceLostAfter == 0
    ensures var t := StopTurn(n, input, output);
            && t.status in {WouldBlock, EndOfStream}
            && Load(t.node, t.input) <= Load(n, input)
            && (Roomy(n.backend.options) && t.status.WouldBlock? ==>
                  Load(t.node, t.input) < Load(n, input) || Blocked(n, output))
  {
    FlushShape(n, input, output);
    FlushSound(n, input, output);
    FlushProgress(n, input, output);
    var t := Flush(n, input, output);
    if t.status.OkStatus? {
      var m := t.node;
      assert m.pendingOut.None? && m.backend == n.backend;
      hide Flush, DrainPending, DrainInput, DrainBackend, Conform, Load, Inside;
      if m.drainStarted {
        DrainBackendProgress(m, input, t.output);
      } else if m.pendingIn.Some? {
        DrainPendingProgress(m, input, t.output);
      } else {
        DrainInputProgress(m, input, t.output);
      }
    }
  }

  // ---------------------------------------------------------------- the node object

  class BackendNode {
    const backend: ReferenceBackend
    const input: BoundedQueue<Frame>
    const output: OutputPort<Frame>
    var state: NodeState
    var pendingInput: Option<Frame>
    var pendingOutput: Option<Frame>
    var drainStarted: bool

    ghost predicate Valid()
      reads this, output
    {
      output.Valid() && input !in output.connections
    }

    function View(): Node
      reads this, backend
    {
      Node(pendingInput, pendingOutput, drainStarted, backend.View())
    }

    constructor (backend: ReferenceBackend, input: BoundedQueue<Frame>, output: OutputPort<Frame>)
      requires output.Valid() && input !in output.connections
      ensures Valid()
      ensures this.backend == backend && this.input == input && this.output == output
      ensures View() == Node(None, None, false, backend.View()) && state == NodeState.Created
    {
      this.backend := backend;
      this.input := input;
      this.output := output;
      state := NodeState.Created;
      pendingInput := None;
      pendingOutput := None;
      drainStarted := false;
    }

    /** The turn that ends in `status` and leaves the node and its queues as they are now. */
    ghost function Now(status: StatusCode): Turn
      reads this, backend, input, output, output.connections
    {
      Turn(status, View(), input.View(), output.View())
    }

    method SendPendingOutput() returns (status: StatusCode)
      requires Valid()
      modifies this, output.connections
      ensures Valid() && state == old(state)
      ensures Now(status) == old(Flush(View(), input.View(), output.View()))
    {
      if pendingOutput == None {
        return OkStatus;
      }
      status := output.Send(pendingOutput.value);
      if status == OkStatus {
        pendingOutput := None;
      }
    }

    method FeedBackend() returns (status: StatusCode)
      requires Valid()
      modifies this, backend, input
      ensures Valid() && state == old(state)
      ensures Now(status) == old(Feed(View(), input.View(), output.View()))
    {
      if pendingInput.Some? {
        status := backend.Submit(pendingInput.value);
        if status == OkStatus {
          pendingInput := None;
        }
        return;
      }
      var popped := input.Pop();
      if popped.Failure? {
        return OkStatus;
      }
      status := backend.Submit(popped.value);
      if status == WouldBlock {
        pendingInput := Some(popped.value);
      }
    }

    method OnTick() returns (status: StatusCode)
      requires Valid()
      modifies this, backend, input, output.connections
      ensures Valid() && state == old(state)
      ensures Now(status) == old(Ticked(View(), input.View(), output.View()))
    {
      hide Feed, Flush, Sent, Received;
      status := SendPendingOutput();
      if status != OkStatus {
        return;
      }
      var received := backend.Receive();
      if received.Success? {
        pendingOutput := Some(received.value);
        status := SendPendingOutput();
        if status != OkStatus {
          return;
        }
      } else {
        if !TemporarilyEmpty(received.code) {
          return received.code;
        }
      }
      status := FeedBackend();
    }

    /** Publishes one received frame and asks for another turn. */
    method EmitFrame(f: Frame) returns (status: StatusCode)
      requires Valid()
      modifies this, output.connections
      ensures Valid() && state == old(state)
      ensures Now(status) == old(Emit(View(), f, input.View(), output.View()))
    {
      pendingOutput := Some(f);
      status := SendPendingOutput();
      if status == OkStatus {
        status := WouldBlock;
      }
    }

    method StopBackend() returns (status: StatusCode)
      requires Valid()
      modifies this, backend, output.connections
      ensures Valid() && state == old(state)
      ensures Now(status) == old(DrainBackend(View(), input.View(), output.View()))
    {
      var received := backend.Receive();
      if received.Failure? {
        return received.code;
      }
      status := EmitFrame(received.value);
    }

    method StopPending() returns (status: StatusCode)
      requires Valid() && pendingInput.Some?
      modifies this, backend, output.connections
      ensures Valid() && state == old(state)
      ensures Now(status) == old(DrainPending(View(), pendingInput.value, input.View(), output.View()))
    {
      status := backend.Submit(pendingInput.value);
      if status == OkStatus {
        pendingInput := None;
        return WouldBlock;
      }
      if status != WouldBlock {
        return;
      }
      var received := backend.Receive();
      if received.Success? {
        status := EmitFrame(received.value);
        return;
      }
      if received.code == EndOfStream {
        return InvalidState;
      }
      return if TemporarilyEmpty(received.code) then WouldBlock else received.code;
    }

    method BeginBackendDrain() returns (status: StatusCode)
      requires Valid() && pendingInput.None?
      modifies this, backend, output.connections
      ensures Valid() && state == old(state)
      ensures Now(status) == old(BeginDrain(View(), input.View(), output.View()))
    {
      hide Emit, DrainBackend, Received, DrainBegun, Flush, Sent;
      var received := backend.Receive();
      if received.Success? {
        status := EmitFrame(received.value);
        return;
      }
      if !TemporarilyEmpty(received.code) {
        return received.code;
      }
      status := backend.BeginDrain();
      if status != OkStatus {
        return;
      }
      drainStarted := true;
      status := StopBackend();
    }

    method StopInput() returns (status: StatusCode)
      requires Valid() && pendingInput.None?
      modifies this, backend, input, output.connections
      ensures Valid() && state == old(state)
      ensures Now(status) == old(DrainInput(View(), input.View(), output.View()))
    {
      var popped := input.Pop();
      if popped.Success? {
        pendingInput := Some(popped.value);
        status := backend.Submit(popped.value);
        if status == OkStatus {
          pendingInput := None;
          return WouldBlock;
        }
        return;
      }
      status := BeginBackendDrain();
    }

    method OnStop() returns (status: StatusCode)
      requires Valid()
      modifies this, backend, input, output.connections
      ensures Valid() && state == old(state)
      ensures Now(status) == old(StopTurn(View(), input.View(), output.View()))
    {
      status := SendPendingOutput();
      if status != OkStatus {
        return;
      }
      if drainStarted {
        status := StopBackend();
      } else if pendingInput.Some? {
        status := StopPending();
      } else {
        status := StopInput();
      }
    }

    method OnReset() returns (status: StatusCode)
      requires Valid()
      modifies this, backend
      ensures Valid() && state == old(state)
      ensures (status, View()) == old(ResetTurn(View()))
    {
      pendingInput := None;
      pendingOutput := None;
      drainStarted := false;
      status := backend.Reset();
    }
  }
}
