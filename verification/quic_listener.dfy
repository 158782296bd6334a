/** The QUIC connection listener of the MsQuic transport, as a sequential
    state machine.

    The listener owns an unbounded single-reader channel of accepted
    connections. The native callback writes to it, and `AcceptAsync` reads
    from it through an async enumerator. Two flags, `_disposed` and
    `_stopped`, drive the mutually recursive `DisposeAsync` and `UnbindAsync`.
    Native calls are opaque: `StartAsync` is modelled as the trace of calls it
    issues. A step that would suspend the caller is reported as such and
    leaves the state alone. Threads, `await` scheduling and cancellation
    tokens are not modelled. */
module QuicListener {
  import opened Wrappers

  /*--------------------------------------------------------------------
   * The accept queue
   *------------------------------------------------------------------*/

  /** An `MsQuicConnection`, identified by the native connection handle it wraps. */
  datatype Connection = Connection(nativeHandle: nat)

  /** `_acceptConnectionQueue`: the buffered items in FIFO order, and whether
      the writer has been completed. */
  datatype AcceptQueue = AcceptQueue(items: seq<Connection>, completed: bool)

  /** Result of `Writer.TryWrite`: whether the item was taken, and the queue after. */
  datatype Written = Written(accepted: bool, queue: AcceptQueue)

  /** `Writer.TryWrite` on an unbounded channel: refused only once completed. */
  function TryWrite(q: AcceptQueue, c: Connection): (r: Written)
    ensures r.accepted <==> !q.completed
    ensures r.queue.completed == q.completed
    ensures r.accepted ==> r.queue.items == q.items + [c]
    ensures !r.accepted ==> r.queue == q
  {
    if q.completed then Written(false, q)
    else Written(true, q.(items := q.items + [c]))
  }

  /** `Writer.TryComplete`: no further writes; buffered items stay readable. */
  function TryComplete(q: AcceptQueue): (r: AcceptQueue)
    ensures r.completed
    ensures r.items == q.items
  {
    q.(completed := true)
  }

  /** What one `MoveNextAsync` of the accept enumerator produces: `true` with
      a `Current` (which may be `null`), a suspension until the channel
      changes, or `false` (the enumerator finished). */
  datatype MoveNextResult = Current(item: Option<Connection>) | Suspended | Finished

  datatype Advance = Advance(result: MoveNextResult, queue: AcceptQueue)

  /** One `MoveNextAsync` of the enumerator built by `AcceptConnectionsAsync`.
      `WaitToReadAsync` is true while an item is buffered, suspends while the
      channel is empty and open, and is false once it is empty and
      completed; the outer `while (true)` then yields `null` and loops. */
  function MoveNext(q: AcceptQueue): (r: Advance)
    ensures !r.result.Finished?
    ensures r.queue.completed == q.completed
    ensures r.result.Current? && r.result.item.Some? <==> q.items != []
    ensures r.result.Current? && r.result.item.Some? ==> q.items == [r.result.item.value] + r.queue.items
    ensures r.result == Current(None) <==> q.completed && q.items == []
    ensures r.result.Suspended? <==> !q.completed && q.items == []
    ensures !(r.result.Current? && r.result.item.Some?) ==> r.queue == q
  {
    if q.items != [] then Advance(Current(Some(q.items[0])), q.(items := q.items[1..]))
    else if q.completed then Advance(Current(None), q)
    else Advance(Suspended, q)
  }

  /*--------------------------------------------------------------------
   * Listener state
   *------------------------------------------------------------------*/

  /** `_secConfig`, derived from the configured certificate. */
  datatype SecurityConfig = SecurityConfig(certificate: nat)

  datatype IPEndPoint = IPEndPoint(address: nat, port: nat)

  /** The options the listener reads from its transport context. */
  datatype TransportOptions = TransportOptions(
    registrationName: string,
    certificate: nat,
    alpn: string,
    idleTimeout: nat,
    maxBidirectionalStreamCount: nat,
    maxUnidirectionalStreamCount: nat)

  /** The opaque native calls `StartAsync` issues, with their arguments. */
  datatype NativeCall =
    | RegistrationOpen(name: string)
    | CreateSecurityConfig(certificate: nat)
    | SessionOpen(alpn: string)
    | ListenerOpen
    | SetIdleTimeout(timeout: nat)
    | SetPeerBidirectionalStreamCount(bidirectional: nat)
    | SetPeerUnidirectionalStreamCount(unidirectional: nat)
    | ListenerStart(endpoint: IPEndPoint)

  datatype Listener = Listener(
    disposed: bool,
    stopped: bool,
    queue: AcceptQueue,
    hasEnumerator: bool,        // `_acceptEnumerator` has been assigned
    secConfig: Option<SecurityConfig>,
    nativeCalls: seq<NativeCall>)

  /** A freshly constructed listener: both flags clear, an empty open
      channel, no enumerator, no security config and no native call yet. */
  function Created(): (r: Listener)
    ensures Consistent(r) && !r.disposed
    ensures r.queue == AcceptQueue([], false)
    ensures !r.hasEnumerator && r.secConfig.None? && r.nativeCalls == []
  {
    Listener(false, false, AcceptQueue([], false), false, None, [])
  }

  /** In every reachable state the two flags and the channel's completion
      agree: all three are set together, inside `DisposeAsync`. */
  predicate Consistent(s: Listener) {
    s.disposed == s.stopped && s.stopped == s.queue.completed
  }

  /*--------------------------------------------------------------------
   * StartAsync and BindAsync
   *------------------------------------------------------------------*/

  /** The calls `StartAsync` issues when none of them fails. */
  function SetupCalls(o: TransportOptions, ep: IPEndPoint): seq<NativeCall> {
    [ RegistrationOpen(o.registrationName),
      CreateSecurityConfig(o.certificate),
      SessionOpen(o.alpn),
      ListenerOpen,
      SetIdleTimeout(o.idleTimeout),
      SetPeerBidirectionalStreamCount(o.maxBidirectionalStreamCount),
      SetPeerUnidirectionalStreamCount(o.maxBidirectionalStreamCount),
      ListenerStart(ep) ]
  }

  /** The position each kind of setup call must take. */
  function Rank(c: NativeCall): nat {
    match c
    case RegistrationOpen(_) => 0
    case CreateSecurityConfig(_) => 1
    case SessionOpen(_) => 2
    case ListenerOpen => 3
    case SetIdleTimeout(_) => 4
    case SetPeerBidirectionalStreamCount(_) => 5
    case SetPeerUnidirectionalStreamCount(_) => 6
    case ListenerStart(_) => 7
  }

  /** Outcome of `StartAsync`/`BindAsync`: the listener after the call and the
      native call that threw, if any. */
  datatype Setup = Setup(listener: Listener, fault: Option<NativeCall>)

  /** `StartAsync`; `failAt` names the index of the native call that throws,
      if one does. The exception ends the sequence; `_secConfig` is assigned
      once `CreateSecurityConfig` has returned. */
  function StartAsync(s: Listener, o: TransportOptions, ep: IPEndPoint, failAt: Option<nat>): (r: Setup)
    ensures var all := SetupCalls(o, ep);
      var issued := if failAt.Some? && failAt.value < |all| then all[..failAt.value + 1] else all;
      && r.listener.nativeCalls == s.nativeCalls + issued
      && (r.fault.Some? <==> failAt.Some? && failAt.value < |all|)
      && (r.fault.Some? ==> r.fault.value == all[failAt.value])
    ensures r.listener.secConfig ==
      (if failAt.None? || failAt.value > 1 then Some(SecurityConfig(o.certificate)) else s.secConfig)
    ensures r.listener == s.(nativeCalls := r.listener.nativeCalls, secConfig := r.listener.secConfig)
  {
    var all := SetupCalls(o, ep);
    if failAt.Some? && failAt.value < |all| then
      var k := failAt.value;
      var sec := if k > 1 then Some(SecurityConfig(o.certificate)) else s.secConfig;
      Setup(s.(nativeCalls := s.nativeCalls + all[..k + 1], secConfig := sec), Some(all[k]))
    else
      Setup(s.(nativeCalls := s.nativeCalls + all, secConfig := Some(SecurityConfig(o.certificate))), None)
  }

  /** `BindAsync`: `StartAsync`, then the accept enumerator is created; an
      exception from `StartAsync` skips the second step. */
  function BindAsync(s: Listener, o: TransportOptions, ep: IPEndPoint, failAt: Option<nat>): (r: Setup)
    ensures r.fault == StartAsync(s, o, ep, failAt).fault
    ensures r.fault.None? ==> r.listener == StartAsync(s, o, ep, failAt).listener.(hasEnumerator := true)
    ensures r.fault.Some? ==> r.listener == StartAsync(s, o, ep, failAt).listener
  {
    var started := StartAsync(s, o, ep, failAt);
    if started.fault.Some? then started
    else Setup(started.listener.(hasEnumerator := true), None)
  }

  /** Whatever call throws, `StartAsync` issues a non-empty prefix of the
      fixed order registration, security config, session, listener open,
      idle timeout, bidirectional count, unidirectional count, listener
      start: the call at position `i` is the one of rank `i`, so no call is
      skipped, repeated or reordered, and a throwing call is the last one
      issued. */
  lemma SetupOrder(s: Listener, o: TransportOptions, ep: IPEndPoint, failAt: Option<nat>)
    ensures var issued := StartAsync(s, o, ep, failAt).listener.nativeCalls[|s.nativeCalls|..];
      && 1 <= |issued| <= 8
      && (forall i :: 0 <= i < |issued| ==> Rank(issued[i]) == i)
      && (StartAsync(s, o, ep, failAt).fault.None? ==> |issued| == 8)
      && (StartAsync(s, o, ep, failAt).fault.Some? ==>
            StartAsync(s, o, ep, failAt).fault.value == issued[|issued| - 1])
  {
    var r := StartAsync(s, o, ep, failAt);
    var all := SetupCalls(o, ep);
    assert r.listener.nativeCalls[|s.nativeCalls|..]
        == (if failAt.Some? && failAt.value < |all| then all[..failAt.value + 1] else all);
  }

  /** Whenever `StartAsync` gets as far as starting the listener, the
      security config exists and was made from the configured certificate. */
  lemma ListenerStartNeedsSecurityConfig(s: Listener, o: TransportOptions, ep: IPEndPoint, failAt: Option<nat>)
    ensures var r := StartAsync(s, o, ep, failAt);
      var issued := r.listener.nativeCalls[|s.nativeCalls|..];
      forall j :: 0 <= j < |issued| && issued[j] == ListenerStart(ep) ==>
        && (exists i :: 0 <= i < j && issued[i] == CreateSecurityConfig(o.certificate))
        && r.listener.secConfig == Some(SecurityConfig(o.certificate))
  {
    var r := StartAsync(s, o, ep, failAt);
    var all := SetupCalls(o, ep);
    var issued := r.listener.nativeCalls[|s.nativeCalls|..];
    SetupOrder(s, o, ep, failAt);
    forall j | 0 <= j < |issued| && issued[j] == ListenerStart(ep)
      ensures exists i :: 0 <= i < j && issued[i] == CreateSecurityConfig(o.certificate)
      ensures r.listener.secConfig == Some(SecurityConfig(o.certificate))
    {
      assert Rank(issued[j]) == 7;
      assert issued[1] == CreateSecurityConfig(o.certificate);
    }
  }

  /** Both peer stream limits are taken from the bidirectional count; the
      unidirectional option is never read. */
  lemma StreamCountsFromBidirectional(o: TransportOptions, ep: IPEndPoint, n: nat)
    ensures SetPeerUnidirectionalStreamCount(o.maxBidirectionalStreamCount) in SetupCalls(o, ep)
    ensures SetupCalls(o.(maxUnidirectionalStreamCount := n), ep) == SetupCalls(o, ep)
  {
  }

  /*--------------------------------------------------------------------
   * The native callback
   *------------------------------------------------------------------*/

  datatype ListenerEvent = NewConnection(connection: nat) | OtherEvent(eventType: nat)

  datatype QuicStatus = Success | InternalError

  /** Outcome of one callback: the status handed to the native layer, the
      listener after, whether `TryWrite` took the connection (ignored by the
      handler), and the security config written into the event. */
  datatype Callback = Callback(
    status: QuicStatus,
    listener: Listener,
    written: bool,
    eventSecurityConfig: Option<SecurityConfig>)

  /** `ListenerCallbackHandler`. */
  function ListenerCallbackHandler(s: Listener, evt: ListenerEvent): (r: Callback)
    ensures evt.OtherEvent? ==> r == Callback(InternalError, s, false, None)
    ensures evt.NewConnection? ==>
      && r.status == Success
      && r.eventSecurityConfig == s.secConfig
      && (r.written <==> !s.queue.completed)
      && r.listener.queue.completed == s.queue.completed
      && r.listener.queue.items
         == (if r.written then s.queue.items + [Connection(evt.connection)] else s.queue.items)
      && r.listener == s.(queue := r.listener.queue)
  {
    match evt
    case OtherEvent(_) => Callback(InternalError, s, false, None)
    case NewConnection(handle) =>
      var w := TryWrite(s.queue, Connection(handle));
      Callback(Success, s.(queue := w.queue), w.accepted, s.secConfig)
  }

  /** The handler reports success for a new connection even when the
      completed channel dropped it. */
  lemma DroppedConnectionReportsSuccess(s: Listener, handle: nat)
    requires s.queue.completed
    ensures var r := ListenerCallbackHandler(s, NewConnection(handle));
      r.status == Success && !r.written && r.listener == s
  {
  }

  /*--------------------------------------------------------------------
   * Teardown
   *------------------------------------------------------------------*/

  /** `StopAcceptingConnections`: completes the channel's writer. */
  function StopAcceptingConnections(s: Listener): (r: Listener)
    ensures r.queue.completed
    ensures r == s.(queue := r.queue) && r.queue.items == s.queue.items
  {
    s.(queue := TryComplete(s.queue))
  }

  /** One entry into `DisposeAsync` or `UnbindAsync`, and whether it returned
      at once because its flag was already set. */
  datatype TeardownCall = DisposeCall(returnedEarly: bool) | UnbindCall(returnedEarly: bool)

  datatype Teardown = Teardown(listener: Listener, calls: seq<TeardownCall>)

  /** How many of the two flags are still clear. */
  function Unset(s: Listener): nat {
    (if s.disposed then 0 else 1) + (if s.stopped then 0 else 1)
  }

  /** Nothing but the two flags and the channel's completion differs. */
  predicate SameButFlags(s: Listener, s': Listener) {
    s' == s.(disposed := s'.disposed, stopped := s'.stopped, queue := s.queue.(completed := s'.queue.completed))
  }

  /** A call chain that alternates between the two operations and whose last
      entry, and only that one, returned early. */
  predicate Chain(calls: seq<TeardownCall>) {
    && 1 <= |calls|
    && calls[|calls| - 1].returnedEarly
    && (forall i :: 0 <= i < |calls| - 1 ==> !calls[i].returnedEarly)
    && (forall i :: 0 <= i < |calls| - 1 ==> calls[i].DisposeCall? != calls[i + 1].DisposeCall?)
  }

  /** `DisposeAsync`: set `_disposed`, complete the channel, then unbind. */
  function DisposeAsync(s: Listener): (r: Teardown)
    decreases Unset(s)
    ensures Chain(r.calls) && |r.calls| <= Unset(s) + 1
    ensures r.calls[0].DisposeCall? && (r.calls[0].returnedEarly <==> s.disposed)
    ensures !s.disposed ==> |r.calls| == Unset(s) + 1
    ensures SameButFlags(s, r.listener)
    ensures (s.disposed ==> r.listener.disposed) && (s.stopped ==> r.listener.stopped)
    ensures s.queue.completed ==> r.listener.queue.completed
    ensures s.disposed ==> r == Teardown(s, [DisposeCall(true)])
    ensures !s.disposed ==> r.listener.disposed && r.listener.stopped && r.listener.queue.completed
  {
    if s.disposed then Teardown(s, [DisposeCall(true)])
    else
      var inner := UnbindAsync(StopAcceptingConnections(s.(disposed := true)));
      Teardown(inner.listener, [DisposeCall(false)] + inner.calls)
  }

  /** `UnbindAsync`: set `_stopped`, then dispose. */
  function UnbindAsync(s: Listener): (r: Teardown)
    decreases Unset(s)
    ensures Chain(r.calls) && |r.calls| <= Unset(s) + 1
    ensures r.calls[0].UnbindCall? && (r.calls[0].returnedEarly <==> s.stopped)
    ensures !s.stopped ==> |r.calls| == Unset(s) + 1
    ensures SameButFlags(s, r.listener)
    ensures (s.disposed ==> r.listener.disposed) && (s.stopped ==> r.listener.stopped)
    ensures s.queue.completed ==> r.listener.queue.completed
    ensures s.stopped ==> r == Teardown(s, [UnbindCall(true)])
    ensures !s.stopped ==> r.listener.disposed && r.listener.stopped
    ensures !s.stopped && !s.disposed ==> r.listener.queue.completed
  {
    if s.stopped then Teardown(s, [UnbindCall(true)])
    else
      var inner := DisposeAsync(s.(stopped := true));
      Teardown(inner.listener, [UnbindCall(false)] + inner.calls)
  }

  /** From a reachable state either teardown ends with all three flags set,
      and a second call of either one returns at once, changing nothing. */
  lemma TeardownIdempotent(s: Listener)
    requires Consistent(s)
    ensures var d := DisposeAsync(s).listener;
      && d.disposed && d.stopped && d.queue.completed
      && DisposeAsync(d) == Teardown(d, [DisposeCall(true)])
      && UnbindAsync(d) == Teardown(d, [UnbindCall(true)])
    ensures var u := UnbindAsync(s).listener;
      && u.disposed && u.stopped && u.queue.completed
      && DisposeAsync(u) == Teardown(u, [DisposeCall(true)])
      && UnbindAsync(u) == Teardown(u, [UnbindCall(true)])
  {
  }

  /*--------------------------------------------------------------------
   * AcceptAsync
   *------------------------------------------------------------------*/

  datatype Exception = ObjectDisposedException | NullReferenceException

  /** What a call of `AcceptAsync` gives its caller: a connection or `null`,
      a suspension, or an exception. */
  datatype AcceptResult = Returned(connection: Option<Connection>) | Pending | Threw(exception: Exception)

  datatype Accepted = Accepted(result: AcceptResult, listener: Listener)

  /** The part of `AcceptAsync` after the disposed check: await
      `MoveNextAsync` and return `Current`, or `null` when it is false. It is
      also what a suspended accept runs when it resumes. */
  function AwaitNext(s: Listener): (r: Accepted)
    ensures !r.result.Threw?
    ensures r.result.Returned? && r.result.connection.Some? <==> s.queue.items != []
    ensures r.listener == s.(queue := r.listener.queue)
    ensures r.result.Returned? && r.result.connection.Some? ==>
      s.queue.items == [r.result.connection.value] + r.listener.queue.items
      && r.listener.queue.completed == s.queue.completed
    ensures !(r.result.Returned? && r.result.connection.Some?) ==> r.listener == s
    ensures r.result == Returned(None) <==> s.queue.completed && s.queue.items == []
    ensures r.result.Pending? <==> !s.queue.completed && s.queue.items == []
  {
    var step := MoveNext(s.queue);
    match step.result
    case Current(c) => Accepted(Returned(c), s.(queue := step.queue))
    case Suspended => Accepted(Pending, s)
    case Finished => Accepted(Returned(None), s)
  }

  /** `AcceptAsync`: throws once disposed; before `BindAsync` the enumerator
      is still `null`. */
  function AcceptAsync(s: Listener): (r: Accepted)
    ensures s.disposed ==> r == Accepted(Threw(ObjectDisposedException), s)
    ensures !s.disposed && !s.hasEnumerator ==> r == Accepted(Threw(NullReferenceException), s)
    ensures r.result.Threw? <==> s.disposed || !s.hasEnumerator
    ensures !r.result.Threw? ==> r == AwaitNext(s)
  {
    if s.disposed then Accepted(Threw(ObjectDisposedException), s)
    else if !s.hasEnumerator then Accepted(Threw(NullReferenceException), s)
    else AwaitNext(s)
  }

  /** The results of `n` successive `MoveNextAsync` calls from `q`. */
  function Repeat(q: AcceptQueue, n: nat): seq<MoveNextResult>
    decreases n
  {
    if n == 0 then []
    else
      var a := MoveNext(q);
      [a.result] + Repeat(a.queue, n - 1)
  }

  /** Once the channel is completed and drained, every later `MoveNextAsync`
      yields `null` again and leaves the channel as it is. */
  lemma {:induction false} DrainedYieldsNullForever(q: AcceptQueue, n: nat)
    requires q.completed && q.items == []
    ensures Repeat(q, n) == seq(n, _ => Current(None))
  {
    if n > 0 {
      DrainedYieldsNullForever(q, n - 1);
    }
  }

  /** An `AcceptAsync` call that starts in a reachable state never completes
      at once with `null`: the channel is completed only after `_disposed` is
      set. Only a call already suspended at disposal receives that `null`. */
  lemma AcceptNeverReturnsNull(s: Listener)
    requires Consistent(s)
    ensures AcceptAsync(s).result != Returned(None)
  {
  }

  /** An accept that was suspended when the listener was disposed resumes
      with `null` rather than an exception. */
  lemma SuspendedAcceptGetsNullAfterDispose(s: Listener)
    requires AcceptAsync(s).result.Pending?
    ensures AwaitNext(DisposeAsync(s).listener).result == Returned(None)
  {
  }

  /*--------------------------------------------------------------------
   * Runs of operations
   *------------------------------------------------------------------*/

  /** One call into the listener from outside. */
  datatype Op =
    | Bind(options: TransportOptions, endpoint: IPEndPoint, failAt: Option<nat>)
    | Accept
    | Event(evt: ListenerEvent)
    | Dispose
    | Unbind

  /** The listener after a run, the connections handed to accept callers in
      order, and the connections the channel took, in order. */
  datatype Run = Run(listener: Listener, delivered: seq<Connection>, enqueued: seq<Connection>)

  /** One operation's effect. */
  function Step(s: Listener, op: Op): Run {
    match op
    case Bind(o, ep, failAt) => Run(BindAsync(s, o, ep, failAt).listener, [], [])
    case Accept =>
      var a := AcceptAsync(s);
      Run(a.listener, if a.result.Returned? && a.result.connection.Some? then [a.result.connection.value] else [], [])
    case Event(evt) =>
      var cb := ListenerCallbackHandler(s, evt);
      Run(cb.listener, [], if cb.written then [Connection(evt.connection)] else [])
    case Dispose => Run(DisposeAsync(s).listener, [], [])
    case Unbind => Run(UnbindAsync(s).listener, [], [])
  }

  /** The operations applied one after another. */
  function Execute(s: Listener, ops: seq<Op>): Run {
    if ops == [] then Run(s, [], [])
    else
      var before := Execute(s, ops[..|ops| - 1]);
      var last := Step(before.listener, ops[|ops| - 1]);
      Run(last.listener, before.delivered + last.delivered, before.enqueued + last.enqueued)
  }

  /** One step keeps the channel's contents accounted for: what was buffered
      plus what was written equals what was delivered plus what is buffered. */
  lemma StepAccounts(s: Listener, op: Op)
    ensures var r := Step(s, op);
      s.queue.items + r.enqueued == r.delivered + r.listener.queue.items
  {
  }

  /** One step never clears a flag and keeps reachable states consistent. */
  lemma StepMonotone(s: Listener, op: Op)
    ensures var r := Step(s, op).listener;
      && (s.disposed ==> r.disposed)
      && (s.stopped ==> r.stopped)
      && (s.queue.completed ==> r.queue.completed)
      && (Consistent(s) ==> Consistent(r))
  {
  }

  /** Two accounting steps compose: if buffer `q0` plus writes `e1` equals
      deliveries `d1` plus buffer `q1`, and likewise from `q1` to `q2`, then
      the writes and deliveries of both steps account from `q0` to `q2`. */
  lemma AccountsCompose<T>(q0: seq<T>, e1: seq<T>, d1: seq<T>, q1: seq<T>, e2: seq<T>, d2: seq<T>, q2: seq<T>)
    requires q0 + e1 == d1 + q1
    requires q1 + e2 == d2 + q2
    ensures q0 + (e1 + e2) == (d1 + d2) + q2
  {
    calc {
      q0 + (e1 + e2);
      (q0 + e1) + e2;
      (d1 + q1) + e2;
      d1 + (q1 + e2);
      d1 + (d2 + q2);
      (d1 + d2) + q2;
    }
  }

  /** FIFO: over any run, the connections delivered followed by those still
      buffered are exactly the ones buffered at the start followed by the
      ones written, in order. */
  lemma {:induction false} ExecuteAccounts(s: Listener, ops: seq<Op>)
    ensures var r := Execute(s, ops);
      s.queue.items + r.enqueued == r.delivered + r.listener.queue.items
  {
    if ops != [] {
      var before := Execute(s, ops[..|ops| - 1]);
      var last := Step(before.listener, ops[|ops| - 1]);
      ExecuteAccounts(s, ops[..|ops| - 1]);
      StepAccounts(before.listener, ops[|ops| - 1]);
      AccountsCompose(s.queue.items, before.enqueued, before.delivered, before.listener.queue.items,
                      last.enqueued, last.delivered, last.listener.queue.items);
    }
  }

  /** Over any run the flags only go from clear to set, and consistency of
      the flags is kept. */
  lemma {:induction false} ExecuteMonotone(s: Listener, ops: seq<Op>)
    ensures var r := Execute(s, ops).listener;
      && (s.disposed ==> r.disposed)
      && (s.stopped ==> r.stopped)
      && (s.queue.completed ==> r.queue.completed)
      && (Consistent(s) ==> Consistent(r))
  {
    if ops != [] {
      ExecuteMonotone(s, ops[..|ops| - 1]);
      StepMonotone(Execute(s, ops[..|ops| - 1]).listener, ops[|ops| - 1]);
    }
  }

  /** From a freshly constructed listener, accept callers receive a prefix
      of the written connections in write order, and an `AcceptAsync` call
      that starts in the state a run reaches never completes at once with
      `null`. */
  lemma FreshListenerDeliversInOrder(ops: seq<Op>)
    ensures var r := Execute(Created(), ops);
      && r.delivered <= r.enqueued
      && r.enqueued == r.delivered + r.listener.queue.items
      && AcceptAsync(r.listener).result != Returned(None)
  {
    ExecuteAccounts(Created(), ops);
    ExecuteMonotone(Created(), ops);
    var r := Execute(Created(), ops);
    assert r.enqueued == r.delivered + r.listener.queue.items;
    assert r.enqueued[..|r.delivered|] == r.delivered;
  }

  /** After `DisposeAsync`, every accept throws and the
      connections still buffered stay in the channel, never handed out. */
  lemma DisposedListenerStrandsQueue(s: Listener)
    ensures var d := DisposeAsync(s).listener;
      && AcceptAsync(d) == Accepted(Threw(ObjectDisposedException), d)
      && d.queue.items == s.queue.items
  {
  }

  /** Once disposed, no run hands out a connection: whatever was buffered,
      and whatever the channel still takes, stays buffered. */
  lemma {:induction false} DisposedListenerNeverDelivers(s: Listener, ops: seq<Op>)
    requires s.disposed
    ensures var r := Execute(s, ops);
      && r.delivered == []
      && r.listener.queue.items == s.queue.items + r.enqueued
  {
    if ops != [] {
      DisposedListenerNeverDelivers(s, ops[..|ops| - 1]);
      ExecuteMonotone(s, ops[..|ops| - 1]);
    }
    ExecuteAccounts(s, ops);
  }
}
