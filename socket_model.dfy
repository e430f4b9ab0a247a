/** The UDP socket's state and what each of its operations and completion
    handlers does to it, as pure functions. The class UdpSocket.UdpSocket
    holds the same state in fields and is proved to follow these functions;
    the lemmas here state what the socket promises over them. */
module SocketModel {
  import opened Wire
  import opened Relay
  import opened Socks5
  import opened Observers
  import opened SendQueue

  /** How an asynchronous operation completed: Cancelled is
      operation_aborted, Errored any other error. */
  datatype Status = Succeeded | Cancelled | Errored

  /** Errors bind reports to its caller. */
  datatype SockError = OperationAborted | BindFailed

  /** One result of reading the socket once it is readable: a datagram and
      its sender, or a receive error. */
  datatype Arrival = Arrived(from: Endpoint, bytes: seq<Byte>) | ReceiveFailed(at: Endpoint)

  /** What the observers are offered: a packet and where it came from (an
      endpoint, or the host name the relay names), or a receive error. */
  datatype Incoming = Packet(from: Target, payload: seq<Byte>) | ReadError(at: Endpoint)

  /** One offered event, the observers that saw it, and whether one claimed it. */
  datatype Delivery = Delivery(event: Incoming, visited: seq<ObserverId>, handled: bool)

  /** The socket's fields: the observer registry and buffer sizes (reg),
      m_bind_port, m_outstanding_op, m_restart_read, m_proxy_settings,
      m_queue_packets, m_tunnel_packets, m_force_proxy, m_abort,
      m_proxy_addr, m_udp_proxy_addr, m_queue, m_outstanding_ops, and the
      position of the SOCKS5 handshake, which the socket keeps implicitly as
      the completion handler it is waiting for. */
  datatype Sock = Sock(
    reg: Registry,
    bindPort: Port,
    outstandingOp: nat,
    restartRead: nat,
    settings: ProxySettings,
    queuePackets: bool,
    tunnelPackets: bool,
    forceProxy: bool,
    abort: bool,
    proxyAddr: Endpoint,
    udpProxyAddr: Endpoint,
    queue: seq<QueuedPacket>,
    outstandingOps: nat,
    stage: Stage)

  const NOWHERE: Endpoint := Endpoint(V4([0, 0, 0, 0]), 0)
  const NO_PROXY: ProxySettings := ProxySettings(NoProxy, [], 0, [], [])

  /** The socket as constructed: open, unbound, no proxy, nothing pending. */
  function Initial(bufSize: nat): Sock {
    Sock(Registry([], [], false, bufSize, bufSize), 0, 0, 0, NO_PROXY,
         false, false, false, false, NOWHERE, NOWHERE, [], 0, Idle)
  }

  /** The invariant that holds between events. */
  predicate Valid(s: Sock) {
    && Settled(s.reg)
    && s.outstandingOp <= 1
    && (!s.abort ==> s.restartRead <= s.outstandingOp)
    && (s.queue != [] ==> s.queuePackets && !s.abort)
    && (s.stage.Tunnelled? ==> s.udpProxyAddr == s.stage.relay)
    && (!s.abort ==> (s.tunnelPackets <==> s.stage.Tunnelled?))
    && (!s.abort ==> (s.queuePackets <==> s.stage.InProgress()))
  }

  /** The send path the flags select (see SendQueue.Mode). */
  function ModeOf(s: Sock): (m: Mode)
    ensures m.Tunnel? ==> m.relay == s.udpProxyAddr
  {
    if s.abort then Closed
    else if s.tunnelPackets then Tunnel(s.udpProxyAddr)
    else if s.queuePackets then Queueing
    else if s.forceProxy then ForcedProxy
    else Direct
  }

  /** The effect of an operation: the new state, what went to the datagram
      socket, and what was written to the proxy's control connection. */
  datatype Effect = Effect(s: Sock, sent: seq<Outcome>, write: seq<Byte>)

  /** send and send_hostname: the packet's fate, and the queue grows by it
      when it waits for the relay. */
  datatype Sending = Sending(s: Sock, outcome: Outcome)

  function SendStep(s: Sock, p: QueuedPacket): Sending {
    var o := Route(ModeOf(s), p);
    Sending(if o.Queued? then s.(queue := s.queue + [p]) else s, o)
  }

  /** drain_queue: queueing stops, and every queued packet is sent in the
      mode that leaves, front to back. */
  function Drain(s: Sock): (e: Effect)
    ensures !e.s.queuePackets && e.s.queue == [] && e.write == []
    ensures e.sent == Flush(ModeOf(s.(queuePackets := false)), s.queue)
  {
    var s1 := s.(queuePackets := false);
    Effect(s1.(queue := []), Flush(ModeOf(s1), s.queue), [])
  }

  /** set_proxy_settings: the tunnel is torn down and the settings stored;
      on an open socket a SOCKS5 proxy starts the handshake (resolving the
      proxy's name, and queueing packets meanwhile), any other kind ends any
      handshake and sends the queue on directly. */
  function SetProxy(s: Sock, ps: ProxySettings): (e: Effect)
    ensures e.s.settings == ps && !e.s.tunnelPackets
    ensures !s.abort && UsesSocks5(ps) ==>
      e.s.stage == Resolving && e.s.queuePackets && e.s.outstandingOps == s.outstandingOps + 1
    ensures !s.abort && !UsesSocks5(ps) ==> e.s.stage == Idle && !e.s.queuePackets && e.s.queue == []
    ensures s.abort ==> e.s == s.(tunnelPackets := false, settings := ps) && e.sent == []
    ensures !s.abort && UsesSocks5(ps) ==>
      e.s == s.(tunnelPackets := false, settings := ps, queuePackets := true, stage := Resolving,
                outstandingOps := s.outstandingOps + 1)
      && e.sent == [] && e.write == []
    ensures !s.abort && !UsesSocks5(ps) ==>
      e.sent == Flush(ModeOf(s.(tunnelPackets := false, settings := ps, stage := Idle, queuePackets := false)), s.queue)
      && e.s == s.(tunnelPackets := false, settings := ps, stage := Idle, queuePackets := false, queue := [])
      && e.write == []
  {
    var s1 := s.(tunnelPackets := false, settings := ps);
    if s1.abort then Effect(s1, [], [])
    else if UsesSocks5(ps) then
      Effect(s1.(queuePackets := true, stage := Resolving, outstandingOps := s1.outstandingOps + 1), [], [])
    else Drain(s1.(stage := Idle))
  }

  /** A completion the handler acts on: the socket is open and the
      operation was not cancelled. */
  predicate Proceeds(s: Sock, status: Status) {
    !s.abort && status != Cancelled
  }

  /** The handshake's completion handlers, from on_name_lookup to connect2.
      Each one retires its operation. A cancelled completion, or any
      completion once the socket is closed, does nothing more. Otherwise the
      stage advances as Socks5.Next says: a failure sends the queue on
      without the proxy; the UDP ASSOCIATE reply opens the tunnel, records
      the relay, sends the queue through it and starts watching the control
      connection; any other step issues the next operation (after the name
      lookup, the connection and its timeout, with the proxy's address
      recorded). */
  function HandshakeStep(s: Sock, status: Status, data: seq<Byte>, resolved: Endpoint): (e: Effect)
    requires s.outstandingOps > 0
    requires Proceeds(s, status) ==> s.stage.InProgress()
  {
    var s0 := s.(outstandingOps := s.outstandingOps - 1);
    if !Proceeds(s, status) then Effect(s0, [], [])
    else Enter(s0, Next(s.stage, Completion(status == Succeeded, data), s.settings), resolved)
  }

  /** Taking the step `st` decided at the current stage: a failure or the
      relay's endpoint ends queueing and sends the queue on (through the
      relay once it is known, which also starts the wait for the proxy to
      hang up); otherwise the next message is written and its completion
      awaited, together with the connect timer after the name lookup. */
  function Enter(s: Sock, st: Step, resolved: Endpoint): (e: Effect) {
    if st.next.Failed? then Drain(s.(stage := st.next))
    else if st.next.Tunnelled? then
      var d := Drain(s.(stage := st.next, udpProxyAddr := st.next.relay, tunnelPackets := true));
      Effect(d.s.(outstandingOps := d.s.outstandingOps + 1), d.sent, [])
    else if s.stage == Resolving then
      Effect(s.(stage := st.next, proxyAddr := resolved, outstandingOps := s.outstandingOps + 2), [], st.send)
    else
      Effect(s.(stage := st.next, outstandingOps := s.outstandingOps + 1), [], st.send)
  }

  /** on_connect_timeout: the timer fired before the connection was made. */
  function TimeoutStep(s: Sock, status: Status): (e: Effect)
    requires s.outstandingOps > 0
    requires Proceeds(s, status) ==> s.stage == Connecting
  {
    var s0 := s.(outstandingOps := s.outstandingOps - 1);
    if !Proceeds(s, status) then Effect(s0, [], [])
    else Drain(s0.(stage := Failed(ConnectTimedOut)))
  }

  /** hung_up: the proxy closed the control connection, so the tunnel is
      set up again from the start with the same settings. */
  function HangUpStep(s: Sock, status: Status): (e: Effect)
    requires s.outstandingOps > 0
    requires Proceeds(s, status) ==> s.stage.Tunnelled?
  {
    var s0 := s.(outstandingOps := s.outstandingOps - 1);
    if !Proceeds(s, status) then Effect(s0, [], [])
    else SetProxy(s0, s0.settings)
  }

  /** setup_read: one read is outstanding. */
  function Rearm(s: Sock): Sock {
    s.(outstandingOp := s.outstandingOp + 1, outstandingOps := s.outstandingOps + 1)
  }

  datatype Binding = Binding(s: Sock, err: Option<SockError>)

  /** bind: refused once the socket is closed, and a failed bind leaves
      the socket as it was; on success the port is recorded and a read is
      set up, unless the old socket's read is still outstanding, in which
      case its completion is marked to restart the read on the new socket.
      Each outstanding read carries at most one mark, however often the
      socket is rebound before that read completes. */
  function BindStep(s: Sock, ok: bool, port: Port): (b: Binding)
    ensures s.abort ==> b == Binding(s, Some(OperationAborted))
    ensures b.err.None? <==> !s.abort && ok
    ensures b.err.Some? ==> b.s == s
    ensures b.err.None? ==>
      b.s.bindPort == port
      && b.s.outstandingOp == (if s.outstandingOp == 0 then 1 else s.outstandingOp)
      && b.s.outstandingOps == (if s.outstandingOp == 0 then s.outstandingOps + 1 else s.outstandingOps)
      && (s.outstandingOp > 0 ==> b.s.restartRead == s.outstandingOp)
      && (s.outstandingOp == 0 ==> b.s.restartRead == s.restartRead)
      && b.s.(bindPort := s.bindPort, outstandingOp := s.outstandingOp,
              outstandingOps := s.outstandingOps, restartRead := s.restartRead) == s
  {
    if s.abort then Binding(s, Some(OperationAborted))
    else if !ok then Binding(s, Some(BindFailed))
    else
      var s1 := s.(bindPort := port);
      if s1.outstandingOp == 0 then Binding(Rearm(s1), None)
      else Binding(s1.(restartRead := s1.outstandingOp), None)
  }

  /** close: the socket is closed for good and its queue is abandoned. */
  function CloseStep(s: Sock): (t: Sock)
    ensures t.abort && t.queue == []
  {
    s.(abort := true, queue := [])
  }

  /** Which arrivals reach the observers: receive errors always do. While
      tunnelled, only datagrams from the relay whose header unwraps do,
      under the sender the header names; with force-proxy and no tunnel,
      none do; otherwise every datagram does, under its real sender. */
  function Accept(s: Sock, a: Arrival): (r: Option<Incoming>)
    ensures a.ReceiveFailed? ==> r == Some(ReadError(a.at))
    ensures a.Arrived? && r.Some? && s.tunnelPackets ==>
      r.value.Packet? && a.from == s.udpProxyAddr
      && Unwrap(a.bytes) == Some(Relayed(r.value.from, r.value.payload))
    ensures a.Arrived? && s.tunnelPackets && a.from == s.udpProxyAddr && Unwrap(a.bytes).Some? ==>
      r.Some?
    ensures a.Arrived? && !s.tunnelPackets ==>
      r == if s.forceProxy then None else Some(Packet(AtEndpoint(a.from), a.bytes))
  {
    match a
    case ReceiveFailed(at) => Some(ReadError(at))
    case Arrived(from, bytes) =>
      if s.tunnelPackets then
        if from != s.udpProxyAddr then None
        else
          match Unwrap(bytes)
          case None => None
          case Some(rel) => Some(Packet(rel.peer, rel.payload))
      else if s.forceProxy then None
      else Some(Packet(AtEndpoint(from), bytes))
  }

  datatype Delivering = Delivering(reg: Registry, deliveries: seq<Delivery>)

  /** The events a batch yields: each arrival that Accept lets through,
      once, in arrival order. */
  function Accepted(s: Sock, batch: seq<Arrival>): seq<Incoming>
    decreases |batch|
  {
    if batch == [] then []
    else
      var a := Accept(s, batch[0]);
      (if a.Some? then [a.value] else []) + Accepted(s, batch[1..])
  }

  /** The events of a sequence of deliveries, in order. */
  function Events(ds: seq<Delivery>): seq<Incoming>
    decreases |ds|
  {
    if ds == [] then [] else [ds[0].event] + Events(ds[1..])
  }

  /** Offers the accepted arrivals to the observers one after the other
      (call_handler); `react` gives each observer's answer to each event. */
  function DeliverAll(s: Sock, r: Registry, batch: seq<Arrival>, react: Incoming -> ObserverId -> Reaction)
    : (d: Delivering)
    requires !r.locked
    ensures !d.reg.locked
    ensures Settled(r) ==> Settled(d.reg)
    ensures |d.deliveries| <= |batch|
    decreases |batch|
  {
    if batch == [] then Delivering(r, [])
    else
      match Accept(s, batch[0])
      case None => DeliverAll(s, r, batch[1..], react)
      case Some(ev) =>
        var w := Dispatch(r, react(ev), true);
        DispatchSettles(r, react(ev), true);
        var rest := DeliverAll(s, w.reg, batch[1..], react);
        Delivering(rest.reg, [Delivery(ev, w.visited, w.handled)] + rest.deliveries)
  }

  /** The events offered to the observers are exactly the arrivals the
      socket accepts, each once, in arrival order. */
  lemma {:induction false} DeliverAllEvents(s: Sock, r: Registry, batch: seq<Arrival>,
                                           react: Incoming -> ObserverId -> Reaction)
    requires !r.locked
    ensures Events(DeliverAll(s, r, batch, react).deliveries) == Accepted(s, batch)
    decreases |batch|
  {
    if batch != [] {
      match Accept(s, batch[0])
      case None => DeliverAllEvents(s, r, batch[1..], react);
      case Some(ev) =>
        var w := Dispatch(r, react(ev), true);
        DispatchSettles(r, react(ev), true);
        DeliverAllEvents(s, w.reg, batch[1..], react);
        var rest := DeliverAll(s, w.reg, batch[1..], react).deliveries;
        var ds := [Delivery(ev, w.visited, w.handled)] + rest;
        assert ds[1..] == rest;
    }
  }

  /** Delivering the rest of a batch from position `k`: the arrival there
      is accepted or not, and the rest follows. */
  lemma DeliverAllStep(s: Sock, r: Registry, batch: seq<Arrival>, k: nat,
                       react: Incoming -> ObserverId -> Reaction)
    requires !r.locked && k < |batch|
    ensures var a := Accept(s, batch[k]);
      DeliverAll(s, r, batch[k..], react)
        == if a.None? then DeliverAll(s, r, batch[k + 1..], react)
           else
             var w := Dispatch(r, react(a.value), true);
             var rest := DeliverAll(s, w.reg, batch[k + 1..], react);
             Delivering(rest.reg, [Delivery(a.value, w.visited, w.handled)] + rest.deliveries)
  {
    assert batch[k..][1..] == batch[k + 1..];
  }

  lemma AppendThree(done: seq<Delivery>, d: Delivery, rest: seq<Delivery>)
    ensures (done + [d]) + rest == done + ([d] + rest)
  {
  }

  datatype Reading = Reading(s: Sock, deliveries: seq<Delivery>)

  /** on_read, the completion of the wait for the socket to become readable.
      The read is retired. On a closed socket nothing more happens. A read
      marked for restart (by bind) is set up again on the new socket without
      looking at its result. A cancelled read ends the read loop. Otherwise
      the batch of datagrams read is delivered, every observer is told that
      the socket is drained (`drained` gives their answers), and the read is
      set up again. */
  function ReadStep(s: Sock, cancelled: bool, batch: seq<Arrival>,
                    react: Incoming -> ObserverId -> Reaction, drained: ObserverId -> Reaction): (r: Reading)
    requires s.outstandingOps > 0 && s.outstandingOp > 0 && !s.reg.locked
  {
    var s0 := s.(outstandingOps := s.outstandingOps - 1, outstandingOp := s.outstandingOp - 1);
    if s0.abort then Reading(s0, [])
    else if s0.restartRead > 0 then Reading(Rearm(s0.(restartRead := s0.restartRead - 1)), [])
    else if cancelled then Reading(s0, [])
    else
      var d := DeliverAll(s0, s0.reg, batch, react);
      var n := Dispatch(d.reg, drained, false);
      Reading(Rearm(s0.(reg := n.reg)), d.deliveries)
  }

  // ---------------------------------------------------------------------
  // Everything that can happen to the socket, and the invariants over it.

  datatype Event =
    | SendReq(p: QueuedPacket)
    | ProxyChange(ps: ProxySettings)
    | ForceChange(force: bool)
    | Join(o: ObserverId)
    | Leave(o: ObserverId)
    | Resize(size: nat)
    | BindReq(ok: bool, port: Port)
    | CloseReq
    | HandshakeEvent(status: Status, data: seq<Byte>, resolved: Endpoint)
    | TimerEvent(status: Status)
    | HangUpEvent(status: Status)
    | ReadEvent(cancelled: bool, batch: seq<Arrival>,
                react: Incoming -> ObserverId -> Reaction, drained: ObserverId -> Reaction)

  /** Whether the event can happen now: a completion only while some
      operation is outstanding, and a live one only in the stage that issued
      it (a stale completion arrives cancelled). The count of outstanding
      operations is shared, so a completion is not tied to the kind of
      operation that is outstanding: this allows more event sequences than
      the socket can see, which is sound for the invariants proved over it. */
  predicate Enabled(s: Sock, e: Event) {
    match e
    case HandshakeEvent(status, _, _) =>
      s.outstandingOps > 0 && (Proceeds(s, status) ==> s.stage.InProgress())
    case TimerEvent(status) => s.outstandingOps > 0 && (Proceeds(s, status) ==> s.stage == Connecting)
    case HangUpEvent(status) => s.outstandingOps > 0 && (Proceeds(s, status) ==> s.stage.Tunnelled?)
    case ReadEvent(_, _, _, _) => s.outstandingOps > 0 && s.outstandingOp > 0 && !s.reg.locked
    case _ => true
  }

  /** What an event hands to the outside: datagram-socket outcomes, bytes
      for the proxy's control connection, deliveries to observers, and the
      error reported to bind's caller. */
  datatype Outputs = Outputs(sent: seq<Outcome>, write: seq<Byte>, deliveries: seq<Delivery>,
                             err: Option<SockError>)

  datatype Performed = Performed(s: Sock, out: Outputs)

  function Quietly(s: Sock): Performed {
    Performed(s, Outputs([], [], [], None))
  }

  function OfEffect(e: Effect): Performed {
    Performed(e.s, Outputs(e.sent, e.write, [], None))
  }

  function Perform(s: Sock, e: Event): Performed
    requires Enabled(s, e)
  {
    match e
    case SendReq(p) =>
      var r := SendStep(s, p);
      Performed(r.s, Outputs([r.outcome], [], [], None))
    case ProxyChange(ps) => OfEffect(SetProxy(s, ps))
    case ForceChange(f) => Quietly(s.(forceProxy := f))
    case Join(o) => Quietly(s.(reg := AddObserver(s.reg, o)))
    case Leave(o) => Quietly(s.(reg := RemoveObserver(s.reg, o)))
    case Resize(n) => Quietly(s.(reg := ResizeBuffer(s.reg, n)))
    case BindReq(ok, port) =>
      var b := BindStep(s, ok, port);
      Performed(b.s, Outputs([], [], [], b.err))
    case CloseReq => Quietly(CloseStep(s))
    case HandshakeEvent(status, data, resolved) => OfEffect(HandshakeStep(s, status, data, resolved))
    case TimerEvent(status) => OfEffect(TimeoutStep(s, status))
    case HangUpEvent(status) => OfEffect(HangUpStep(s, status))
    case ReadEvent(c, batch, react, drained) =>
      var r := ReadStep(s, c, batch, react, drained);
      Performed(r.s, Outputs([], [], r.deliveries, None))
  }

  /** The state after the events `es`, skipping any that cannot happen. */
  function Replay(s: Sock, es: seq<Event>): Sock
    decreases |es|
  {
    if es == [] then s
    else Replay(if Enabled(s, es[0]) then Perform(s, es[0]).s else s, es[1..])
  }

  // ---------------------------------------------------------------------
  // Properties.

  lemma InitialValid(bufSize: nat)
    ensures Valid(Initial(bufSize)) && !Initial(bufSize).abort && Initial(bufSize).queue == []
  {
  }

  lemma SetProxyKeepsValid(s: Sock, ps: ProxySettings)
    requires Valid(s)
    ensures Valid(SetProxy(s, ps).s)
  {
  }

  lemma HandshakeKeepsValid(s: Sock, status: Status, data: seq<Byte>, resolved: Endpoint)
    requires Valid(s) && s.outstandingOps > 0 && (Proceeds(s, status) ==> s.stage.InProgress())
    ensures Valid(HandshakeStep(s, status, data, resolved).s)
  {
    if Proceeds(s, status) {
      NextFollowsChain(s.stage, Completion(status == Succeeded, data), s.settings);
    }
  }

  lemma HangUpKeepsValid(s: Sock, status: Status)
    requires Valid(s) && s.outstandingOps > 0 && (Proceeds(s, status) ==> s.stage.Tunnelled?)
    ensures Valid(HangUpStep(s, status).s)
  {
    if Proceeds(s, status) {
      SetProxyKeepsValid(s.(outstandingOps := s.outstandingOps - 1), s.settings);
    }
  }

  lemma ReadKeepsValid(s: Sock, c: bool, batch: seq<Arrival>,
                       react: Incoming -> ObserverId -> Reaction, drained: ObserverId -> Reaction)
    requires Valid(s) && s.outstandingOps > 0 && s.outstandingOp > 0
    ensures Valid(ReadStep(s, c, batch, react, drained).s)
  {
    var s0 := s.(outstandingOps := s.outstandingOps - 1, outstandingOp := s.outstandingOp - 1);
    var d := DeliverAll(s0, s0.reg, batch, react);
    DispatchSettles(d.reg, drained, false);
  }

  /** Every event that can happen keeps the invariant. */
  lemma PerformKeepsValid(s: Sock, e: Event)
    requires Valid(s) && Enabled(s, e)
    ensures Valid(Perform(s, e).s)
  {
    match e
    case SendReq(p) =>
    case ProxyChange(ps) => SetProxyKeepsValid(s, ps);
    case ForceChange(f) =>
    case Join(o) => OutsideWalkSettled(s.reg, Subscribe(o));
    case Leave(o) => OutsideWalkSettled(s.reg, Unsubscribe(o));
    case Resize(n) => OutsideWalkSettled(s.reg, SetBufSize(n));
    case BindReq(ok, port) =>
    case CloseReq =>
    case HandshakeEvent(status, data, resolved) => HandshakeKeepsValid(s, status, data, resolved);
    case TimerEvent(status) =>
    case HangUpEvent(status) => HangUpKeepsValid(s, status);
    case ReadEvent(c, batch, react, drained) => ReadKeepsValid(s, c, batch, react, drained);
  }

  /** The invariant holds after any sequence of events. */
  lemma {:induction false} ValidThroughout(s: Sock, es: seq<Event>)
    requires Valid(s)
    ensures Valid(Replay(s, es))
    decreases |es|
  {
    if es != [] {
      var t := if Enabled(s, es[0]) then Perform(s, es[0]).s else s;
      if Enabled(s, es[0]) {
        PerformKeepsValid(s, es[0]);
      }
      ValidThroughout(t, es[1..]);
    }
  }

  /** A closed socket is inert: it stays closed with an empty queue, its
      count of outstanding operations never grows, nothing reaches the
      network, the proxy or the observers, every send fails as on a closed
      descriptor and bind is refused. */
  lemma ClosedIsInert(s: Sock, e: Event)
    requires s.abort && s.queue == [] && Enabled(s, e)
    ensures var r := Perform(s, e);
      r.s.abort && r.s.queue == []
      && r.s.outstandingOps <= s.outstandingOps
      && r.out.write == [] && r.out.deliveries == []
      && (forall o :: o in r.out.sent ==> o == Dropped(SocketClosed))
      && (e.BindReq? ==> r.out.err == Some(OperationAborted))
  {
  }

  /** After close, whatever happens, the socket stays closed, the queue
      stays empty and the count of outstanding operations only goes down,
      so teardown can wait for it to reach zero. */
  lemma {:induction false} CloseIsFinal(s: Sock, es: seq<Event>)
    requires s.abort && s.queue == []
    ensures var t := Replay(s, es);
      t.abort && t.queue == [] && t.outstandingOps <= s.outstandingOps
    decreases |es|
  {
    if es != [] {
      var t := if Enabled(s, es[0]) then Perform(s, es[0]).s else s;
      if Enabled(s, es[0]) {
        ClosedIsInert(s, es[0]);
      }
      CloseIsFinal(t, es[1..]);
    }
  }

  /** Closing twice is closing once. */
  lemma CloseIdempotent(s: Sock)
    ensures CloseStep(CloseStep(s)) == CloseStep(s)
  {
  }

  /** Sends packets one after the other. */
  function SendAll(s: Sock, ps: seq<QueuedPacket>): Sock
    decreases |ps|
  {
    if ps == [] then s else SendAll(SendStep(s, ps[0]).s, ps[1..])
  }

  /** While the handshake is in progress, packets that may wait join the
      back of the queue, in the order they are sent. */
  lemma {:induction false} QueueKeepsSendOrder(s: Sock, ps: seq<QueuedPacket>)
    requires ModeOf(s) == Queueing
    requires forall i :: 0 <= i < |ps| ==> !DontQueue(ps[i].flags)
    ensures SendAll(s, ps) == s.(queue := s.queue + ps)
    decreases |ps|
  {
    if ps != [] {
      var s1 := SendStep(s, ps[0]).s;
      assert s1 == s.(queue := s.queue + [ps[0]]);
      QueueKeepsSendOrder(s1, ps[1..]);
      assert s.queue + [ps[0]] + ps[1..] == s.queue + ps;
    }
  }

  /** A packet that must not wait is dropped while the handshake is in
      progress, and the queue is left as it was. */
  lemma DontQueueIsDropped(s: Sock, p: QueuedPacket)
    requires ModeOf(s) == Queueing && DontQueue(p.flags)
    ensures SendStep(s, p) == Sending(s, Dropped(NotQueued))
  {
  }

  /** The UDP ASSOCIATE reply that grants a relay opens the tunnel to it and
      flushes the whole queue through it, front to back: the relay receives
      every queued packet, in order, and reads back from each the
      destination and payload it was queued with. The queue is then empty. */
  lemma TunnelFlushesQueue(s: Sock, data: seq<Byte>, resolved: Endpoint)
    requires Valid(s) && !s.abort && s.outstandingOps > 0
    requires s.stage == ReadingAssociate && ParseAssociateReply(data).Granted?
    requires forall i :: 0 <= i < |s.queue| ==> Encodable(s.queue[i].to)
    ensures var relay := ParseAssociateReply(data).relay;
      var e := HandshakeStep(s, Succeeded, data, resolved);
      e.s.stage == Tunnelled(relay) && e.s.tunnelPackets && e.s.udpProxyAddr == relay
      && e.s.queue == [] && !e.s.queuePackets && |e.sent| == |s.queue|
      && (forall i :: 0 <= i < |s.queue| ==>
            e.sent[i].Sent? && e.sent[i].d.to == relay
            && Unwrap(e.sent[i].d.bytes) == Some(Relayed(s.queue[i].to, s.queue[i].payload)))
  {
    var relay := ParseAssociateReply(data).relay;
    FlushThroughTunnel(relay, s.queue);
  }

  /** When the handshake fails, the queue is sent on without the proxy:
      packets to numeric endpoints go out directly unless force-proxy is on,
      and everything else is dropped; queueing stops and the queue is empty. */
  lemma FailureFallsBack(s: Sock, status: Status, data: seq<Byte>, resolved: Endpoint)
    requires Valid(s) && s.outstandingOps > 0 && Proceeds(s, status) && s.stage.InProgress()
    requires HandshakeStep(s, status, data, resolved).s.stage.Failed?
    ensures var e := HandshakeStep(s, status, data, resolved);
      e.s.queue == [] && !e.s.queuePackets && !e.s.tunnelPackets && |e.sent| == |s.queue|
      && (forall i :: 0 <= i < |s.queue| ==>
            if !s.forceProxy && s.queue[i].to.AtEndpoint? then
              e.sent[i] == Sent(Datagram(s.queue[i].to.ep, s.queue[i].payload))
            else e.sent[i].Dropped?)
  {
    var m := if s.forceProxy then ForcedProxy else Direct;
    FlushWithoutTunnel(m, s.queue);
  }

  /** The proxy's control address is taken only from a successful name
      lookup, and the relay address only from a UDP ASSOCIATE reply that
      grants it; the tunnel opens on that reply and on nothing else. */
  lemma AddressesFromTheirReplies(s: Sock, status: Status, data: seq<Byte>, resolved: Endpoint)
    requires Valid(s) && s.outstandingOps > 0 && (Proceeds(s, status) ==> s.stage.InProgress())
    ensures var e := HandshakeStep(s, status, data, resolved);
      (e.s.proxyAddr != s.proxyAddr ==> s.stage == Resolving && status == Succeeded && e.s.proxyAddr == resolved)
      && (e.s.tunnelPackets && !s.tunnelPackets ==>
            s.stage == ReadingAssociate && status == Succeeded
            && ParseAssociateReply(data) == Granted(e.s.udpProxyAddr))
      && (e.s.udpProxyAddr != s.udpProxyAddr ==> e.s.tunnelPackets)
  {
    if Proceeds(s, status) {
      NextFollowsChain(s.stage, Completion(status == Succeeded, data), s.settings);
    }
  }

  /** Binds one port after the other, as long as each bind succeeds. */
  function BindAll(s: Sock, ports: seq<Port>): Sock
    decreases |ports|
  {
    if ports == [] then s else BindAll(BindStep(s, true, ports[0]).s, ports[1..])
  }

  /** Rebinding, once or several times, while the old socket's read is
      outstanding: that read is marked once, and its completion only
      restarts the read on the new socket and delivers nothing, whatever it
      carried, so the net effect is the last port alone and the next read
      completion is delivered as usual. */
  lemma {:induction false} RebindRestartsRead(s: Sock, ports: seq<Port>, cancelled: bool, batch: seq<Arrival>,
                                             react: Incoming -> ObserverId -> Reaction,
                                             drained: ObserverId -> Reaction)
    requires Valid(s) && !s.abort && s.outstandingOp == 1 && s.outstandingOps > 0
    requires |ports| > 0
    ensures var b := BindAll(s, ports);
      b == s.(bindPort := ports[|ports| - 1], restartRead := 1)
      && var r := ReadStep(b, cancelled, batch, react, drained);
         r.deliveries == [] && r.s == s.(bindPort := ports[|ports| - 1], restartRead := 0)
    decreases |ports|
  {
    var s1 := BindStep(s, true, ports[0]).s;
    assert s1 == s.(bindPort := ports[0], restartRead := 1);
    if |ports| > 1 {
      RebindRestartsRead(s1, ports[1..], cancelled, batch, react, drained);
      assert ports[1..][|ports[1..]| - 1] == ports[|ports| - 1];
    }
  }

  /** A read marked for restart is set up again and the mark is used up,
      one per completion: whatever the completion carried (the expected
      cancellation, or data for the old socket), nothing is delivered and
      the socket is otherwise as before the completion. */
  lemma RestartedReadOnlyRearms(s: Sock, cancelled: bool, batch: seq<Arrival>,
                                react: Incoming -> ObserverId -> Reaction, drained: ObserverId -> Reaction)
    requires s.outstandingOps > 0 && s.outstandingOp > 0 && !s.reg.locked
    requires !s.abort && s.restartRead > 0
    ensures var r := ReadStep(s, cancelled, batch, react, drained);
      r.deliveries == [] && r.s == s.(restartRead := s.restartRead - 1)
  {
  }

  /** A delivery is first-match: the event is claimed exactly when the last
      observer that saw it claimed it, and every observer before that one
      declined it. */
  predicate FirstMatch(d: Delivery, react: Incoming -> ObserverId -> Reaction) {
    (d.handled <==> |d.visited| > 0 && react(d.event)(d.visited[|d.visited| - 1]).handled)
    && (forall j :: 0 <= j < |d.visited| - 1 ==> !react(d.event)(d.visited[j]).handled)
  }

  /** Every delivery of a read is first-match. */
  lemma {:induction false} DeliveriesFirstMatch(s: Sock, r: Registry, batch: seq<Arrival>,
                                               react: Incoming -> ObserverId -> Reaction)
    requires !r.locked
    ensures forall k :: 0 <= k < |DeliverAll(s, r, batch, react).deliveries| ==>
      FirstMatch(DeliverAll(s, r, batch, react).deliveries[k], react)
    decreases |batch|
  {
    if batch != [] {
      match Accept(s, batch[0])
      case None => DeliveriesFirstMatch(s, r, batch[1..], react);
      case Some(ev) =>
        var w := Dispatch(r, react(ev), true);
        DispatchFirstMatch(r, react(ev));
        var rest := DeliverAll(s, w.reg, batch[1..], react).deliveries;
        DeliveriesFirstMatch(s, w.reg, batch[1..], react);
        assert forall i :: 0 <= i < |rest| ==> FirstMatch(rest[i], react);
        var d := Delivery(ev, w.visited, w.handled);
        assert FirstMatch(d, react);
        var ds := DeliverAll(s, r, batch, react).deliveries;
        assert ds == [d] + rest;
        forall k | 0 <= k < |ds| ensures FirstMatch(ds[k], react) {
          if k == 0 {
            assert ds[k] == d;
          } else {
            assert ds[k] == rest[k - 1];
            assert FirstMatch(rest[k - 1], react);
          }
        }
    }
  }

  /** Through the tunnel, a datagram from the relay is offered under the
      sender and payload its header names, and a datagram from anywhere else
      is not offered at all. */
  lemma TunnelledArrivals(s: Sock, from: Endpoint, t: Target, payload: seq<Byte>)
    requires s.tunnelPackets && Encodable(t)
    ensures Accept(s, Arrived(s.udpProxyAddr, Wrap(t, payload))) == Some(Packet(t, payload))
    ensures from != s.udpProxyAddr ==> Accept(s, Arrived(from, Wrap(t, payload))).None?
  {
    UnwrapWrap(t, payload);
  }
}
