/** The socket object itself: the fields of class udp_socket, updated in
    place by its methods and completion handlers. Each method is proved to
    leave the fields exactly as the matching function of SocketModel says,
    so the properties proved there hold of the object. */
module UdpSocket {
  import opened Wire
  import opened Relay
  import opened Socks5
  import opened Observers
  import opened SendQueue
  import opened SocketModel

  class UdpSocket {
    var observers: seq<Slot>
    var addedObservers: seq<ObserverId>
    var observersLocked: bool
    var bufSize: nat
    var newBufSize: nat
    var bindPort: Port
    var outstandingOp: nat
    var restartRead: nat
    var proxySettings: ProxySettings
    var queuePackets: bool
    var tunnelPackets: bool
    var forceProxy: bool
    var abort: bool
    var proxyAddr: Endpoint
    var udpProxyAddr: Endpoint
    var queue: seq<QueuedPacket>
    var outstandingOps: nat
    /** Which handshake completion handler is awaited (see Socks5.Stage). */
    var stage: Stage

    function Reg(): Registry
      reads this
    {
      Registry(observers, addedObservers, observersLocked, bufSize, newBufSize)
    }

    /** The fields as one value. */
    function State(): Sock
      reads this
    {
      Sock(Reg(), bindPort, outstandingOp, restartRead, proxySettings, queuePackets,
           tunnelPackets, forceProxy, abort, proxyAddr, udpProxyAddr, queue, outstandingOps, stage)
    }

    constructor (size: nat)
      ensures State() == Initial(size)
    {
      observers := [];
      addedObservers := [];
      observersLocked := false;
      bufSize := size;
      newBufSize := size;
      bindPort := 0;
      outstandingOp := 0;
      restartRead := 0;
      proxySettings := NO_PROXY;
      queuePackets := false;
      tunnelPackets := false;
      forceProxy := false;
      abort := false;
      proxyAddr := NOWHERE;
      udpProxyAddr := NOWHERE;
      queue := [];
      outstandingOps := 0;
      stage := Idle;
    }

    /** is_open and is_closed read the same flag, so exactly one holds. */
    function IsOpen(): (r: bool)
      reads this
      ensures r != IsClosed()
    {
      !abort
    }

    function IsClosed(): (r: bool)
      reads this
      ensures r <==> State().abort
    {
      abort
    }

    method Subscribe(o: ObserverId)
      modifies this`observers, this`addedObservers
      ensures Reg() == AddObserver(old(Reg()), o)
    {
      if observersLocked {
        addedObservers := addedObservers + [o];
      } else {
        observers := observers + [Live(o)];
      }
    }

    method Unsubscribe(o: ObserverId)
      modifies this`observers, this`addedObservers
      ensures Reg() == RemoveObserver(old(Reg()), o)
    {
      var r := RemoveObserver(Reg(), o);
      observers := r.observers;
      addedObservers := r.added;
    }

    method SetBufSize(size: nat)
      modifies this`bufSize, this`newBufSize
      ensures Reg() == ResizeBuffer(old(Reg()), size)
    {
      if observersLocked {
        newBufSize := size;
        return;
      }
      if size == bufSize {
        return;
      }
      bufSize := size;
      newBufSize := size;
    }

    method SetForceProxy(f: bool)
      modifies this
      ensures State() == old(State()).(forceProxy := f)
    {
      forceProxy := f;
    }

    /** An observer's hook calling back into the socket while it runs. */
    method RunHook(ops: seq<HookOp>)
      modifies this`observers, this`addedObservers, this`bufSize, this`newBufSize
      ensures Reg() == ApplyAll(old(Reg()), ops)
    {
      var j := 0;
      assert ops[j..] == ops;
      while j < |ops|
        invariant 0 <= j <= |ops|
        invariant ApplyAll(Reg(), ops[j..]) == ApplyAll(old(Reg()), ops)
        decreases |ops| - j
      {
        ghost var before := Reg();
        ApplyAllStep(before, ops, j);
        match ops[j] {
          case Subscribe(o) => this.Subscribe(o);
          case Unsubscribe(o) => this.Unsubscribe(o);
          case SetBufSize(n) => this.SetBufSize(n);
        }
        assert Reg() == Apply(before, ops[j]);
        j := j + 1;
      }
    }

    /** The walk itself: each live entry in turn is offered the event and
        its hook runs, until one handles the packet (with stopOnHandled) or
        the list ends. The list is locked throughout, so hooks only withdraw
        entries, queue new observers and record resize requests. */
    method WalkObservers(react: ObserverId -> Reaction, stopOnHandled: bool)
      returns (visited: seq<ObserverId>, handled: bool)
      requires observersLocked
      modifies this`observers, this`addedObservers, this`bufSize, this`newBufSize
      ensures var w := Walk(old(Reg()), 0, react, stopOnHandled);
        Reg() == w.reg && visited == w.visited && handled == w.handled
    {
      ghost var w0 := Walk(Reg(), 0, react, stopOnHandled);
      ghost var n := |observers|;
      visited := [];
      handled := false;
      var i := 0;
      while i < |observers|
        invariant |observers| == n && 0 <= i <= n
        invariant Reg().locked
        invariant visited <= w0.visited && !handled
        invariant Walk(Reg(), i, react, stopOnHandled) == Walked(w0.reg, w0.visited[|visited|..], w0.handled)
        decreases n - i
      {
        ghost var r := Reg();
        WalkStep(r, i, react, stopOnHandled);
        var slot := observers[i];
        if slot.Live? {
          var h := react(slot.id);
          RunHook(h.ops);
          visited := visited + [slot.id];
          if stopOnHandled && h.handled {
            handled := true;
            return;
          }
        }
        i := i + 1;
      }
    }

    /** call_handler (stopOnHandled) and call_drained_handler: walks the
        observers with the list locked, then sweeps withdrawn entries, lets
        the waiting observers join and carries out a deferred resize. */
    method CallHandler(react: ObserverId -> Reaction, stopOnHandled: bool)
      returns (visited: seq<ObserverId>, handled: bool)
      requires !observersLocked
      modifies this`observers, this`addedObservers, this`observersLocked, this`bufSize, this`newBufSize
      ensures var d := Dispatch(old(Reg()), react, stopOnHandled);
        Reg() == d.reg && visited == d.visited && handled == d.handled
    {
      observersLocked := true;
      visited, handled := WalkObservers(react, stopOnHandled);
      observers := Compact(observers) + Lives(addedObservers);
      addedObservers := [];
      observersLocked := false;
      SetBufSize(newBufSize);
    }

    /** send and send_hostname, once the destination is a Target. */
    method SendPacket(p: QueuedPacket) returns (o: Outcome)
      modifies this`queue
      ensures var r := SendStep(old(State()), p); State() == r.s && o == r.outcome
    {
      o := Transmit(p);
      if o.Queued? {
        queue := queue + [p];
      }
    }

    /** The routing decision of send, tested on the socket's fields in the
        order send tests them, and proved to agree with SendQueue.Route in
        the mode those fields select. */
    method Transmit(p: QueuedPacket) returns (o: Outcome)
      ensures o == Route(ModeOf(State()), p)
    {
      if abort {
        o := Dropped(SocketClosed);
      } else if tunnelPackets {
        o := Sent(Datagram(udpProxyAddr, Wrap(p.to, p.payload)));
      } else if queuePackets {
        o := if DontQueue(p.flags) then Dropped(NotQueued) else Queued;
      } else if forceProxy {
        o := Dropped(ProxyRequired);
      } else if p.to.AtHost? {
        o := Dropped(HostnameNeedsProxy);
      } else {
        o := Sent(Datagram(p.to.ep, p.payload));
      }
    }

    method Send(to: Endpoint, payload: seq<Byte>, flags: nat) returns (o: Outcome)
      modifies this
      ensures var r := SendStep(old(State()), QueuedPacket(AtEndpoint(to), payload, flags));
        State() == r.s && o == r.outcome
    {
      o := SendPacket(QueuedPacket(AtEndpoint(to), payload, flags));
    }

    method SendHostname(host: seq<Byte>, port: Port, payload: seq<Byte>, flags: nat) returns (o: Outcome)
      modifies this
      ensures var r := SendStep(old(State()), QueuedPacket(AtHost(host, port), payload, flags));
        State() == r.s && o == r.outcome
    {
      o := SendPacket(QueuedPacket(AtHost(host, port), payload, flags));
    }

    /** drain_queue: stops queueing, then sends and pops the front packet
        until the queue is empty. */
    method DrainQueue() returns (sent: seq<Outcome>)
      modifies this`queue, this`queuePackets
      ensures var e := Drain(old(State())); State() == e.s && sent == e.sent
    {
      queuePackets := false;
      ghost var m := ModeOf(State());
      ghost var q0 := queue;
      sent := [];
      while queue != []
        invariant !queuePackets && !m.Queueing? && ModeOf(State()) == m
        invariant sent + Flush(m, queue) == Flush(m, q0)
        decreases |queue|
      {
        var p := queue[0];
        assert Flush(m, queue) == [Route(m, p)] + Flush(m, queue[1..]);
        var o := Transmit(p);
        queue := queue[1..];
        sent := sent + [o];
      }
    }

    method SetProxySettings(ps: ProxySettings) returns (sent: seq<Outcome>)
      modifies this
      ensures var e := SetProxy(old(State()), ps); State() == e.s && sent == e.sent
    {
      ghost var s1 := old(State()).(tunnelPackets := false, settings := ps);
      tunnelPackets := false;
      proxySettings := ps;
      sent := [];
      assert State() == s1;
      if abort {
        return;
      }
      if UsesSocks5(ps) {
        queuePackets := true;
        stage := Resolving;
        outstandingOps := outstandingOps + 1;
        assert State() == s1.(queuePackets := true, stage := Resolving, outstandingOps := s1.outstandingOps + 1);
      } else {
        sent := EndHandshake(Idle);
      }
    }

    /** The body shared by the handshake's completion handlers. */
    method Advance(status: Status, data: seq<Byte>, resolved: Endpoint)
      returns (write: seq<Byte>, sent: seq<Outcome>)
      requires outstandingOps > 0
      requires Proceeds(State(), status) ==> stage.InProgress()
      modifies this
      ensures var e := HandshakeStep(old(State()), status, data, resolved);
        State() == e.s && write == e.write && sent == e.sent
    {
      ghost var s0 := old(State()).(outstandingOps := old(outstandingOps) - 1);
      outstandingOps := outstandingOps - 1;
      assert State() == s0;
      if abort || status == Cancelled {
        return [], [];
      }
      var st := Next(stage, Completion(status == Succeeded, data), proxySettings);
      write, sent := Enter(st, resolved);
    }

    /** The handshake moves on to the stage `st` names. */
    method Enter(st: Step, resolved: Endpoint) returns (write: seq<Byte>, sent: seq<Outcome>)
      modifies this`stage, this`udpProxyAddr, this`tunnelPackets, this`queue, this`queuePackets
      modifies this`proxyAddr, this`outstandingOps
      ensures var e := SocketModel.Enter(old(State()), st, resolved);
        State() == e.s && write == e.write && sent == e.sent
    {
      if st.next.Failed? {
        write := [];
        sent := EndHandshake(st.next);
      } else if st.next.Tunnelled? {
        write := [];
        sent := OpenTunnel(st.next);
      } else {
        write := st.send;
        sent := [];
        if stage == Resolving {
          proxyAddr := resolved;
          outstandingOps := outstandingOps + 2;
        } else {
          outstandingOps := outstandingOps + 1;
        }
        stage := st.next;
      }
    }

    /** The handshake ends at `next` (a failure, or no SOCKS5 proxy any
        more): queueing ends and the queue goes out directly. */
    method EndHandshake(next: Stage) returns (sent: seq<Outcome>)
      modifies this`stage, this`queue, this`queuePackets
      ensures var e := Drain(old(State()).(stage := next)); State() == e.s && sent == e.sent
    {
      ghost var s1 := old(State()).(stage := next);
      stage := next;
      assert State() == s1;
      sent := DrainQueue();
    }

    /** The relay is known: packets go through it from now on, the queue
        first, and the wait for the proxy to hang up starts. */
    method OpenTunnel(next: Stage) returns (sent: seq<Outcome>)
      requires next.Tunnelled?
      modifies this`stage, this`udpProxyAddr, this`tunnelPackets, this`queue, this`queuePackets
      modifies this`outstandingOps
      ensures var d := Drain(old(State()).(stage := next, udpProxyAddr := next.relay, tunnelPackets := true));
        State() == d.s.(outstandingOps := d.s.outstandingOps + 1) && sent == d.sent
    {
      ghost var s1 := old(State()).(stage := next, udpProxyAddr := next.relay, tunnelPackets := true);
      stage := next;
      udpProxyAddr := next.relay;
      tunnelPackets := true;
      assert State() == s1;
      sent := DrainQueue();
      assert State() == Drain(s1).s;
      outstandingOps := outstandingOps + 1;
    }

    method OnNameLookup(status: Status, resolved: Endpoint) returns (sent: seq<Outcome>)
      requires outstandingOps > 0
      requires Proceeds(State(), status) ==> stage == Resolving
      modifies this
      ensures var e := HandshakeStep(old(State()), status, [], resolved); State() == e.s && sent == e.sent
    {
      var _, s := Advance(status, [], resolved);
      sent := s;
    }

    method OnConnected(status: Status) returns (write: seq<Byte>, sent: seq<Outcome>)
      requires outstandingOps > 0
      requires Proceeds(State(), status) ==> stage == Connecting
      modifies this
      ensures var e := HandshakeStep(old(State()), status, [], NOWHERE);
        State() == e.s && write == e.write && sent == e.sent
    {
      write, sent := Advance(status, [], NOWHERE);
    }

    method Handshake1(status: Status) returns (sent: seq<Outcome>)
      requires outstandingOps > 0
      requires Proceeds(State(), status) ==> stage == SendingGreeting
      modifies this
      ensures var e := HandshakeStep(old(State()), status, [], NOWHERE); State() == e.s && sent == e.sent
    {
      var _, s := Advance(status, [], NOWHERE);
      sent := s;
    }

    method Handshake2(status: Status, reply: seq<Byte>) returns (write: seq<Byte>, sent: seq<Outcome>)
      requires outstandingOps > 0
      requires Proceeds(State(), status) ==> stage == ReadingMethod
      modifies this
      ensures var e := HandshakeStep(old(State()), status, reply, NOWHERE);
        State() == e.s && write == e.write && sent == e.sent
    {
      write, sent := Advance(status, reply, NOWHERE);
    }

    method Handshake3(status: Status) returns (sent: seq<Outcome>)
      requires outstandingOps > 0
      requires Proceeds(State(), status) ==> stage == SendingCredentials
      modifies this
      ensures var e := HandshakeStep(old(State()), status, [], NOWHERE); State() == e.s && sent == e.sent
    {
      var _, s := Advance(status, [], NOWHERE);
      sent := s;
    }

    method Handshake4(status: Status, reply: seq<Byte>) returns (write: seq<Byte>, sent: seq<Outcome>)
      requires outstandingOps > 0
      requires Proceeds(State(), status) ==> stage == ReadingAuthStatus
      modifies this
      ensures var e := HandshakeStep(old(State()), status, reply, NOWHERE);
        State() == e.s && write == e.write && sent == e.sent
    {
      write, sent := Advance(status, reply, NOWHERE);
    }

    method Connect1(status: Status) returns (sent: seq<Outcome>)
      requires outstandingOps > 0
      requires Proceeds(State(), status) ==> stage == SendingAssociate
      modifies this
      ensures var e := HandshakeStep(old(State()), status, [], NOWHERE); State() == e.s && sent == e.sent
    {
      var _, s := Advance(status, [], NOWHERE);
      sent := s;
    }

    method Connect2(status: Status, reply: seq<Byte>) returns (sent: seq<Outcome>)
      requires outstandingOps > 0
      requires Proceeds(State(), status) ==> stage == ReadingAssociate
      modifies this
      ensures var e := HandshakeStep(old(State()), status, reply, NOWHERE); State() == e.s && sent == e.sent
    {
      var _, s := Advance(status, reply, NOWHERE);
      sent := s;
    }

    method OnConnectTimeout(status: Status) returns (sent: seq<Outcome>)
      requires outstandingOps > 0
      requires Proceeds(State(), status) ==> stage == Connecting
      modifies this
      ensures var e := TimeoutStep(old(State()), status); State() == e.s && sent == e.sent
    {
      outstandingOps := outstandingOps - 1;
      sent := [];
      if abort || status == Cancelled {
        return;
      }
      ghost var s1 := old(State()).(outstandingOps := old(outstandingOps) - 1, stage := Failed(ConnectTimedOut));
      stage := Failed(ConnectTimedOut);
      assert State() == s1;
      sent := DrainQueue();
    }

    method HungUp(status: Status) returns (sent: seq<Outcome>)
      requires outstandingOps > 0
      requires Proceeds(State(), status) ==> stage.Tunnelled?
      modifies this
      ensures var e := HangUpStep(old(State()), status); State() == e.s && sent == e.sent
    {
      outstandingOps := outstandingOps - 1;
      sent := [];
      if abort || status == Cancelled {
        return;
      }
      sent := SetProxySettings(proxySettings);
    }

    method SetupRead()
      modifies this`outstandingOp, this`outstandingOps
      ensures State() == Rearm(old(State()))
    {
      outstandingOp := outstandingOp + 1;
      outstandingOps := outstandingOps + 1;
    }

    method Bind(ok: bool, port: Port) returns (err: Option<SockError>)
      modifies this
      ensures var b := BindStep(old(State()), ok, port); State() == b.s && err == b.err
    {
      if abort {
        return Some(OperationAborted);
      }
      if !ok {
        return Some(BindFailed);
      }
      bindPort := port;
      err := None;
      if outstandingOp == 0 {
        SetupRead();
      } else {
        restartRead := outstandingOp;
      }
    }

    method Close()
      modifies this
      ensures State() == CloseStep(old(State()))
    {
      abort := true;
      queue := [];
    }

    /** The datagrams of one read, each accepted one offered to the
        observers in turn (first match wins). */
    method DeliverBatch(batch: seq<Arrival>, react: Incoming -> ObserverId -> Reaction)
      returns (deliveries: seq<Delivery>)
      requires !observersLocked
      modifies this`observers, this`addedObservers, this`observersLocked, this`bufSize, this`newBufSize
      ensures var t := DeliverAll(old(State()), old(Reg()), batch, react);
        Reg() == t.reg && deliveries == t.deliveries
    {
      var s := State();
      ghost var total := DeliverAll(s, Reg(), batch, react);
      deliveries := [];
      var k := 0;
      while k < |batch|
        invariant 0 <= k <= |batch| && !observersLocked
        invariant DeliverAll(s, Reg(), batch[k..], react).reg == total.reg
        invariant deliveries + DeliverAll(s, Reg(), batch[k..], react).deliveries == total.deliveries
      {
        DeliverAllStep(s, Reg(), batch, k, react);
        var ev := Accept(s, batch[k]);
        if ev.Some? {
          var visited, handled := CallHandler(react(ev.value), true);
          ghost var rest := DeliverAll(s, Reg(), batch[k + 1..], react).deliveries;
          AppendThree(deliveries, Delivery(ev.value, visited, handled), rest);
          deliveries := deliveries + [Delivery(ev.value, visited, handled)];
        }
        k := k + 1;
      }
    }

    /** on_read: the socket is readable (or the wait was cancelled); reads
        the batch, offers each accepted arrival to the observers, tells them
        the socket is drained and waits again. */
    method OnRead(cancelled: bool, batch: seq<Arrival>,
                  react: Incoming -> ObserverId -> Reaction, drained: ObserverId -> Reaction)
      returns (deliveries: seq<Delivery>)
      requires outstandingOps > 0 && outstandingOp > 0 && !observersLocked
      modifies this
      ensures var r := ReadStep(old(State()), cancelled, batch, react, drained);
        State() == r.s && deliveries == r.deliveries
    {
      ghost var s0 := old(State()).(outstandingOps := old(outstandingOps) - 1, outstandingOp := old(outstandingOp) - 1);
      outstandingOps := outstandingOps - 1;
      outstandingOp := outstandingOp - 1;
      assert State() == s0;
      deliveries := [];
      if abort || (restartRead == 0 && cancelled) {
        return;
      }
      if restartRead > 0 {
        restartRead := restartRead - 1;
        assert State() == s0.(restartRead := s0.restartRead - 1);
        SetupRead();
        return;
      }
      deliveries := ReadBatch(batch, react, drained);
    }

    /** Delivers the batch read, tells the observers the socket is drained
        and waits for the next datagrams. */
    method ReadBatch(batch: seq<Arrival>, react: Incoming -> ObserverId -> Reaction, drained: ObserverId -> Reaction)
      returns (deliveries: seq<Delivery>)
      requires !observersLocked
      modifies this`observers, this`addedObservers, this`observersLocked, this`bufSize, this`newBufSize
      modifies this`outstandingOp, this`outstandingOps
      ensures var d := DeliverAll(old(State()), old(Reg()), batch, react);
        State() == Rearm(old(State()).(reg := Dispatch(d.reg, drained, false).reg)) && deliveries == d.deliveries
    {
      ghost var s0 := State();
      deliveries := Deliver(batch, react, drained);
      assert State() == s0.(reg := Dispatch(DeliverAll(s0, s0.reg, batch, react).reg, drained, false).reg);
      SetupRead();
    }

    /** The observers' part of on_read: the batch is delivered, then every
        observer is told the socket is drained. */
    method Deliver(batch: seq<Arrival>, react: Incoming -> ObserverId -> Reaction, drained: ObserverId -> Reaction)
      returns (deliveries: seq<Delivery>)
      requires !observersLocked
      modifies this`observers, this`addedObservers, this`observersLocked, this`bufSize, this`newBufSize
      ensures var d := DeliverAll(old(State()), old(Reg()), batch, react);
        Reg() == Dispatch(d.reg, drained, false).reg && deliveries == d.deliveries
    {
      deliveries := DeliverBatch(batch, react);
      var _, _ := CallHandler(drained, false);
    }
  }
}
