/** Where an outgoing packet goes: straight to its destination, through the
    SOCKS5 relay, into the queue kept while the relay is being set up, or
    nowhere. The queue itself is strictly first in, first out, and draining it
    routes every packet in order. */
module SendQueue {
  import opened Wire
  import opened Relay

  /** The send flags of udp_socket::flags_t. The first two only classify the
      traffic for accounting; dont_queue forbids queueing the packet. */
  const PEER_CONNECTION: nat := 1
  const TRACKER_CONNECTION: nat := 2
  const DONT_QUEUE: nat := 4

  predicate DontQueue(flags: nat) {
    (flags / DONT_QUEUE) % 2 == 1
  }

  /** A packet waiting for the relay: its destination (an endpoint, or a host
      name for the proxy to resolve), its payload and its flags. */
  datatype QueuedPacket = QueuedPacket(to: Target, payload: seq<Byte>, flags: nat)

  /** A datagram handed to the operating system's socket. */
  datatype Datagram = Datagram(to: Endpoint, bytes: seq<Byte>)

  datatype DropReason =
    | SocketClosed        // the socket is closed (bad file descriptor)
    | NotQueued           // the relay is not ready and the packet may not wait
    | ProxyRequired       // force-proxy is on and there is no relay
    | HostnameNeedsProxy  // a host-name destination can only go through the relay

  datatype Outcome = Sent(d: Datagram) | Queued | Dropped(reason: DropReason)

  /** The send path the socket's flags select, most decisive first: closed
      (m_abort), tunnelled (m_tunnel_packets), queueing (m_queue_packets),
      proxy forced but absent (m_force_proxy), or direct. */
  datatype Mode = Closed | Tunnel(relay: Endpoint) | Queueing | ForcedProxy | Direct

  /** The fate of one packet sent in mode `m`. */
  function Route(m: Mode, p: QueuedPacket): Outcome {
    match m
    case Closed => Dropped(SocketClosed)
    case Tunnel(relay) => Sent(Datagram(relay, Wrap(p.to, p.payload)))
    case Queueing => if DontQueue(p.flags) then Dropped(NotQueued) else Queued
    case ForcedProxy => Dropped(ProxyRequired)
    case Direct =>
      match p.to
      case AtEndpoint(ep) => Sent(Datagram(ep, p.payload))
      case AtHost(_, _) => Dropped(HostnameNeedsProxy)
  }

  /** A packet is queued exactly while the relay is being set up and the
      packet may wait; it goes out wrapped to the relay when tunnelled, as
      it is to a numeric endpoint when direct, and is dropped otherwise. */
  lemma RouteDecides(m: Mode, p: QueuedPacket)
    ensures var o := Route(m, p);
      (o.Queued? <==> m.Queueing? && !DontQueue(p.flags))
      && (o.Sent? && m.Tunnel? ==> o.d == Datagram(m.relay, Wrap(p.to, p.payload)))
      && (o.Sent? && !m.Tunnel? ==> m.Direct? && p.to.AtEndpoint? && o.d == Datagram(p.to.ep, p.payload))
      && (o.Dropped? <==>
            (m.Closed? || m.ForcedProxy? || (m.Queueing? && DontQueue(p.flags))
             || (m.Direct? && p.to.AtHost?)))
  {
  }

  /** Drains the queue front to back in a mode that no longer queues. */
  function Flush(m: Mode, q: seq<QueuedPacket>): (r: seq<Outcome>)
    requires !m.Queueing?
    ensures |r| == |q|
  {
    if q == [] then [] else [Route(m, q[0])] + Flush(m, q[1..])
  }

  /** Draining never puts a packet back in the queue. */
  lemma FlushNeverQueues(m: Mode, q: seq<QueuedPacket>)
    requires !m.Queueing?
    ensures forall i :: 0 <= i < |q| ==> !Flush(m, q)[i].Queued?
  {
    forall i | 0 <= i < |q| ensures !Flush(m, q)[i].Queued? {
      FlushAt(m, q, i);
    }
  }

  lemma {:induction false} FlushAt(m: Mode, q: seq<QueuedPacket>, i: nat)
    requires !m.Queueing? && i < |q|
    ensures Flush(m, q)[i] == Route(m, q[i])
  {
    if i > 0 {
      FlushAt(m, q[1..], i - 1);
    }
  }

  /** Once the relay is up, every queued packet reaches the relay in queue
      order, and the relay reads back from each exactly the destination and
      payload it was queued with. */
  lemma FlushThroughTunnel(relay: Endpoint, q: seq<QueuedPacket>)
    requires forall i :: 0 <= i < |q| ==> Encodable(q[i].to)
    ensures var r := Flush(Tunnel(relay), q);
      forall i :: 0 <= i < |q| ==>
        r[i].Sent? && r[i].d.to == relay
        && Unwrap(r[i].d.bytes) == Some(Relayed(q[i].to, q[i].payload))
  {
    forall i | 0 <= i < |q| {
      FlushThroughTunnelAt(relay, q, i);
    }
  }

  lemma FlushThroughTunnelAt(relay: Endpoint, q: seq<QueuedPacket>, i: nat)
    requires i < |q| && Encodable(q[i].to)
    ensures Flush(Tunnel(relay), q)[i] == Sent(Datagram(relay, Wrap(q[i].to, q[i].payload)))
    ensures Unwrap(Wrap(q[i].to, q[i].payload)) == Some(Relayed(q[i].to, q[i].payload))
  {
    FlushAt(Tunnel(relay), q, i);
    UnwrapWrap(q[i].to, q[i].payload);
  }

  /** Without a relay and without force-proxy, queued packets to numeric
      endpoints go out directly and unwrapped, in queue order; host-name
      packets cannot. With force-proxy, nothing goes out. */
  lemma FlushWithoutTunnel(m: Mode, q: seq<QueuedPacket>)
    requires m.Direct? || m.ForcedProxy?
    ensures var r := Flush(m, q);
      forall i :: 0 <= i < |q| ==>
        if m.Direct? && q[i].to.AtEndpoint? then r[i] == Sent(Datagram(q[i].to.ep, q[i].payload))
        else r[i].Dropped?
  {
    forall i | 0 <= i < |q| {
      FlushAt(m, q, i);
    }
  }
}
