# libtorrent's UDP socket and per-file progress, in Dafny

This project models two stateful parts of libtorrent and proves properties of
them.

**`udp_socket`** (include/libtorrent/udp_socket.hpp) is the one UDP socket
that the DHT, the uTP transport and the UDP trackers share. The model covers:

- the observer registry. The active list and the waiting list are kept apart
  by `m_observers_locked` while an event is being dispatched, and dispatch is
  first-match-wins.
- the send path and its flags (`m_abort`, `m_tunnel_packets`,
  `m_queue_packets`, `m_force_proxy`), and the FIFO queue that `drain_queue`
  flushes.
- the deferred resize of the receive buffer (`m_buf_size`,
  `m_new_buf_size`).
- the read-restart counter used when the socket is rebound (`m_restart_read`).
- the counters of outstanding operations.
- the SOCKS5 handshake that sets up a UDP relay:
  - method negotiation (RFC 1928 section 3);
  - username/password authentication (RFC 1929);
  - UDP ASSOCIATE (RFC 1928 sections 4 and 6);
  - the proxy hanging up.
- the relay header of RFC 1928 section 7, which `wrap` writes and `unwrap`
  reads.

**`file_progress`** (include/libtorrent/aux_/file_progress.hpp) keeps, for
each file of a torrent, how many of its bytes lie in pieces that passed the
hash check, and a running total over the files that are not pad files.

udp_socket.hpp and file_progress.hpp declare both classes, and define only
their one-line accessors inline; the other methods are declared there and
defined elsewhere. The behaviour of each method is taken from:

- the declared fields and the comments on them;
- the method names and signatures;
- the RFCs the handshake and the relay header follow.

## Layout

- `wire.dfy` (`Wire`): bytes, ports, and the `Option` type.
- `relay.dfy` (`Relay`): the ATYP/ADDR/PORT codec, and `Wrap`/`Unwrap` of
  the relay header, with their round trip.
- `socks5.dfy` (`Socks5`):
  - the handshake messages and how a server reads them;
  - the chain of completion handlers as an explicit `Stage`;
  - the step function `Next`;
  - the lemmas about every path that ends with a tunnel.
- `observers.dfy` (`Observers`):
  - the registry as a value;
  - the hooks an observer runs while an event is dispatched, modelled as a
    `Reaction`;
  - the walk over the active list, and `Dispatch`.
- `send_queue.dfy` (`SendQueue`): where a packet goes in each send mode
  (`Route`), and the front-to-back flush of the queue (`Flush`).
- `socket_model.dfy` (`SocketModel`):
  - all the socket's fields as one value `Sock`;
  - each operation and completion handler as a function on it;
  - the invariant `Valid`, and the properties proved over sequences of events.
- `udp_socket.dfy` (`UdpSocket`): the class `UdpSocket`, which holds the
  fields and updates them in place. Each method is proved to leave the fields
  exactly as the matching `SocketModel` function says.
- `file_layout.dfy` (`FileLayout`):
  - what `file_storage` contributes: sizes, pad flags, and the piece length;
  - the bytes of each file that each piece holds;
  - the progress vector a set of had pieces gives, with its bounds and its
    completion criterion.
- `file_progress.dfy` (`FileProgress`): the class `FileProgress` with
  `m_total_on_disk`, `m_file_progress` and the invariant-check fields (as
  ghost fields). Its in-place loops are proved against `FileLayout`.

## Model

| member | source | states |
|---|---|---|
| Wire.ReadPort | include/libtorrent/udp_socket.hpp:204-206 | A port read from its two network-order bytes has the first byte as its high byte and the second as its low byte |
| Wire.PortBytes | include/libtorrent/udp_socket.hpp:204-206 | A port is written as two bytes, high byte first, that read back as the same port |
| Relay.HostOnWire | include/libtorrent/udp_socket.hpp:205 | The host name written to the relay is at most 255 bytes long. It is a prefix of the given name, and is the whole name when that fits |
| Relay.EncodeTarget | include/libtorrent/udp_socket.hpp:204-205 | No contract of its own; defines the ATYP/ADDR/PORT triple written for a target: ATYP 1 and four bytes, ATYP 4 and sixteen bytes, or ATYP 3, a length byte and the host name cut to 255 bytes, each followed by the port high byte first; DecodeEncodeTarget proves it reads back |
| Relay.DecodeTarget | include/libtorrent/udp_socket.hpp:206 | An accepted ATYP/ADDR/PORT triple is exactly the bytes the encoder writes for the decoded target. An unknown ATYP is rejected |
| Relay.DecodeEncodeTarget | include/libtorrent/udp_socket.hpp:204-206 | Decoding an encoded triple gives back the target and its length, whatever bytes follow it |
| Relay.Wrap | include/libtorrent/udp_socket.hpp:204-205 | No contract of its own; defines the relay header as RSV (two zero bytes), FRAG = 0, the target's triple from EncodeTarget, then the payload; see UnwrapWrap and UnwrapWrapLongHost |
| Relay.Unwrap | include/libtorrent/udp_socket.hpp:206 | A datagram with nonzero FRAG or an unknown ATYP is dropped. Whatever is accepted is, from FRAG on, exactly what wrap writes for the result |
| Relay.UnwrapWrap | include/libtorrent/udp_socket.hpp:204-206 | unwrap(wrap(target, payload)) gives back the target and the payload, for IPv4, IPv6 and host names of at most 255 bytes |
| Relay.UnwrapWrapLongHost | include/libtorrent/udp_socket.hpp:205 | A host name longer than 255 bytes reaches the relay cut to its first 255 bytes. The port and the payload are intact |
| Socks5.Greeting | include/libtorrent/udp_socket.hpp:193 | The method-selection message is version 5 with a correct method count. It always offers no-authentication, and offers username/password exactly when the settings ask for it and carry a user name |
| Socks5.AuthRequest | include/libtorrent/udp_socket.hpp:195 | No contract of its own; defines the RFC 1929 request as VER = 1, ULEN, UNAME, PLEN, PASSWD; AuthRequestRoundTrip proves a server reads back the same name and password |
| Socks5.AuthRequestRoundTrip | include/libtorrent/udp_socket.hpp:195 | An RFC 1929 server reads back from the request exactly the user name and password that were sent |
| Socks5.AssociateRequest | include/libtorrent/udp_socket.hpp:197 | The UDP ASSOCIATE request is 10 bytes and starts with VER=5 CMD=3 RSV=0 |
| Socks5.AssociateRequestAddress | include/libtorrent/udp_socket.hpp:197 | The address part of the request reads back as the unspecified address 0.0.0.0:0 |
| Socks5.ParseAssociateReply | include/libtorrent/udp_socket.hpp:199 | A granted reply has VER=5 and REP=0, and the relay endpoint is what its BND field encodes. A reply is refused exactly when VER=5 and REP is nonzero |
| Socks5.ParseReplyBytes | include/libtorrent/udp_socket.hpp:199 | A reply written by a server is read back as refused for a nonzero REP. With REP=0 it grants the numeric endpoint it names, and a host-name BND is malformed |
| Socks5.OnMethodReply | include/libtorrent/udp_socket.hpp:194 | The reply 5/0 goes on to UDP ASSOCIATE and writes the UDP ASSOCIATE request, and no other reply does. The reply 5/2 with credentials that fit goes on to authentication and writes the RFC 1929 request for them, and no other reply does. A reply that is not two bytes of version 5 fails as a bad version, and every failure writes nothing |
| Socks5.Next | include/libtorrent/udp_socket.hpp:190-199 | No contract of its own; defines each completion handler of the chain: a failure ends the handshake with its stage's reason, a success moves to the next stage with the message to write; see NextSends, NextFollowsChain and TunnelOnlyThroughHandshake |
| Socks5.NextSends | include/libtorrent/udp_socket.hpp:190-200 | Each handler in both directions: a failed operation always fails the handshake and writes nothing. A successful name lookup or write always moves to the next stage, and the connection always moves on and writes the greeting. The RFC 1929 status moves on to UDP ASSOCIATE, writing its request, exactly when it is 1/0. The UDP ASSOCIATE reply opens the tunnel exactly when it grants a relay |
| Socks5.NextFollowsChain | include/libtorrent/udp_socket.hpp:190-200 | Each completion either fails the handshake or moves it to the next stage of the chain. Only the authentication stages can be skipped, and the tunnel is entered only from a UDP ASSOCIATE reply that grants a relay, carrying that relay |
| Socks5.Run | include/libtorrent/udp_socket.hpp:190-200 | The stages a run of completions visits start at the given stage, one per completion at most |
| Socks5.TunnelOnlyThroughHandshake | include/libtorrent/udp_socket.hpp:190-200 | A run that ends tunnelled went through resolve, connect, greeting and method reply, then authentication (only when the credentials fit), then the associate request and reply, in that order. The relay is the endpoint granted by the last reply |
| Socks5.PathFromBeforeAuth | include/libtorrent/udp_socket.hpp:194-196 | Of the two full handshake paths, exactly the one with authentication contains the credentials stage |
| Observers.AddObserver | include/libtorrent/udp_socket.hpp:84 | No contract of its own; defines subscribe as appending to m_observers, or to m_added_observers while the list is locked; see DispatchDefersNewObservers and UdpSocket.UdpSocket.Subscribe |
| Observers.RemoveObserver | include/libtorrent/udp_socket.hpp:85 | No contract of its own; defines unsubscribe as leaving m_added_observers, and leaving m_observers by erasure, or by withdrawal while the list is locked; see WithdrawLiveIds and EraseLiveIds |
| Observers.ResizeBuffer | include/libtorrent/udp_socket.hpp:211-218 | No contract of its own; defines set_buf_size as recording m_new_buf_size while the buffer is in use and resizing at once otherwise; see DispatchDefersResize |
| Observers.RemoveFirst | include/libtorrent/udp_socket.hpp:85 | Removing an observer that is absent leaves the list as it is, and removing one that is present shortens it by one |
| Observers.RemoveFirstKeepsOrder | include/libtorrent/udp_socket.hpp:85 | Removing an observer that is present takes out exactly its first occurrence: the entries before it and after it stay, in their order |
| Observers.RemoveFirstCount | include/libtorrent/udp_socket.hpp:85 | unsubscribe takes exactly one occurrence of the observer off the waiting list |
| Observers.WithdrawLiveIds | include/libtorrent/udp_socket.hpp:169-175 | Unsubscribing during a walk takes exactly the observer's first live entry off the active list |
| Observers.WithdrawOnly | include/libtorrent/udp_socket.hpp:169-175 | Unsubscribing during a walk moves no entry of the list being iterated. Each entry either stays or is withdrawn |
| Observers.EraseLiveIds | include/libtorrent/udp_socket.hpp:85 | Unsubscribing outside a walk takes exactly the observer's first live entry off the active list |
| Observers.CompactLiveIds | include/libtorrent/udp_socket.hpp:169-175 | Sweeping the withdrawn entries away keeps the live observers and their order |
| Observers.LivesLiveIds | include/libtorrent/udp_socket.hpp:157-158 | The waiting observers join the active list as live entries, in the order they subscribed |
| Observers.ApplyAll | include/libtorrent/udp_socket.hpp:169-175 | While the list is locked, hooks leave it locked and leave its length unchanged |
| Observers.ApplyAllWhileLocked | include/libtorrent/udp_socket.hpp:211-219 | Hooks running during a walk only withdraw entries. They keep the buffer size in use and record the last size requested |
| Observers.Walk | include/libtorrent/udp_socket.hpp:177-181 | No contract of its own; defines the loop of call_handler and the notifications: live entries from a position on, in list order, stopping at the first that handles the packet when asked to; see WalkWhileLocked, WalkVisitsSurvivors and DispatchFirstMatch |
| Observers.WalkWhileLocked | include/libtorrent/udp_socket.hpp:169-175 | A whole walk keeps the list locked, only withdraws entries and never resizes the buffer in use |
| Observers.WalkVisitsSurvivors | include/libtorrent/udp_socket.hpp:169-175 | Whatever the hooks do, a walk that no claimer stops visits every observer whose entry is still live when the walk ends |
| Observers.Dispatch | include/libtorrent/udp_socket.hpp:177-181 | No contract of its own; defines a dispatch as locking the list, walking it from the front, then dropping withdrawn entries and applying the deferred additions and resize; see DispatchFirstMatch, DispatchSettles and DispatchDefersNewObservers |
| Observers.DispatchFirstMatch | include/libtorrent/udp_socket.hpp:52-55 | The packet counts as handled exactly when the last observer that saw it handled it, and every observer before that one declined it. So no observer after the claimer sees it |
| Observers.DispatchDefersNewObservers | include/libtorrent/udp_socket.hpp:169-175 | Only observers on the active list when the event arrived see it. Those subscribed during the walk join afterwards, behind the others, and the waiting list ends empty |
| Observers.DispatchDefersResize | include/libtorrent/udp_socket.hpp:211-219 | A resize requested during a walk leaves the buffer size alone until the walk ends, and then the buffer takes exactly the requested size |
| Observers.DispatchSettles | include/libtorrent/udp_socket.hpp:169-175 | After a dispatch, the registry is unlocked, nobody is waiting, no withdrawn entry is left and no resize is pending |
| Observers.OutsideWalkSettled | include/libtorrent/udp_socket.hpp:84-85 | subscribe, unsubscribe and set_buf_size called between events keep the registry settled |
| Observers.DispatchWithoutHooks | include/libtorrent/udp_socket.hpp:177-181 | With hooks that change nothing, a packet reaches the observers in subscription order up to the first claimer, and a notification reaches every observer |
| SendQueue.Route | include/libtorrent/udp_socket.hpp:88-92 | No contract of its own; defines the fate of one packet in each send mode (closed, tunnelled, queueing, forced proxy, direct); RouteDecides states it in both directions |
| SendQueue.RouteDecides | include/libtorrent/udp_socket.hpp:239-244 | A packet is queued exactly while the relay is being set up and dont_queue is clear. Through the tunnel it goes to the relay, wrapped. Directly it goes only to a numeric endpoint, unwrapped. In every other case it is dropped |
| SendQueue.Flush | include/libtorrent/udp_socket.hpp:257-260 | Draining yields exactly one outcome per queued packet |
| SendQueue.FlushAt | include/libtorrent/udp_socket.hpp:257-260 | The i-th outcome of a drain is the fate of the i-th queued packet: the order is FIFO |
| SendQueue.FlushNeverQueues | include/libtorrent/udp_socket.hpp:202 | Draining never puts a packet back in the queue |
| SendQueue.FlushThroughTunnel | include/libtorrent/udp_socket.hpp:204-205 | Through the tunnel, each queued packet reaches the relay in order, and the relay reads back from it exactly the destination and payload it was queued with |
| SendQueue.FlushWithoutTunnel | include/libtorrent/udp_socket.hpp:202 | Without a tunnel, packets to numeric endpoints go out directly unless force-proxy is on. Everything else is dropped |
| SocketModel.ModeOf | include/libtorrent/udp_socket.hpp:239-244 | The tunnel mode sends to m_udp_proxy_addr |
| SocketModel.SendStep | include/libtorrent/udp_socket.hpp:88-92 | No contract of its own; defines send and send_hostname as the packet's Route outcome, with the queue growing by the packet exactly when it is queued; see QueueKeepsSendOrder and DontQueueIsDropped |
| SocketModel.Drain | include/libtorrent/udp_socket.hpp:257-260 | drain_queue stops queueing, writes nothing to the proxy, leaves the queue empty, and sends the queue front to back in the mode that is left |
| SocketModel.SetProxy | include/libtorrent/udp_socket.hpp:97 | The settings are stored and the tunnel is torn down. On an open socket, a SOCKS5 proxy starts name resolution, queueing and one outstanding operation. The queue and every other field are kept, and nothing is sent or written. Any other kind ends the handshake, stops queueing and sends every queued packet, front to back, in the mode that is left, and the queue ends empty. On a closed socket nothing else changes and nothing is sent |
| SocketModel.BindStep | include/libtorrent/udp_socket.hpp:222-233 | bind succeeds exactly when the socket is open and the OS bind succeeds, and a refused or failed bind leaves the state unchanged. A successful one records the port. With no read outstanding it sets one up; otherwise it marks the outstanding read for restart, once. Nothing else changes |
| SocketModel.CloseStep | include/libtorrent/udp_socket.hpp:94 | close leaves the socket closed with an empty queue |
| SocketModel.Accept | include/libtorrent/udp_socket.hpp:206 | Receive errors are always offered. While tunnelled, only datagrams from the relay are offered, exactly when they unwrap, under the sender the header names. With force-proxy and no tunnel nothing is offered, and otherwise a datagram is offered under its real sender |
| SocketModel.DeliverAll | include/libtorrent/udp_socket.hpp:187-189 | Delivering a batch leaves the registry unlocked, and settled if it was settled. There is at most one delivery per datagram |
| SocketModel.DeliverAllEvents | include/libtorrent/udp_socket.hpp:187-189 | The events offered to the observers are exactly the accepted arrivals of the batch, each once, in arrival order (`Accepted`) |
| SocketModel.Valid | include/libtorrent/udp_socket.hpp:221-244 | No contract of its own; the invariant between events: the registry is settled, at most one read is outstanding and a restart is only pending for it, the queue is non-empty only while queueing on an open socket, and on an open socket m_tunnel_packets and m_queue_packets follow the handshake stage; see ValidThroughout |
| SocketModel.InitialValid | include/libtorrent/udp_socket.hpp:72 | The socket as constructed is open, has an empty queue and satisfies the invariant |
| SocketModel.SetProxyKeepsValid | include/libtorrent/udp_socket.hpp:97 | set_proxy_settings keeps the invariant |
| SocketModel.HandshakeStep | include/libtorrent/udp_socket.hpp:190-199 | No contract of its own; defines a handshake completion: cancelled or on a closed socket it only retires the operation, otherwise it takes the step Next decides; see HandshakeKeepsValid, FailureFallsBack and TunnelFlushesQueue |
| SocketModel.TimeoutStep | include/libtorrent/udp_socket.hpp:191 | No contract of its own; defines on_connect_timeout as ending the handshake with ConnectTimedOut and sending the queue on; see HandshakeKeepsValid |
| SocketModel.HangUpStep | include/libtorrent/udp_socket.hpp:200 | No contract of its own; defines hung_up as starting the handshake again with the stored settings; see HangUpKeepsValid |
| SocketModel.HandshakeKeepsValid | include/libtorrent/udp_socket.hpp:190-200 | Every handshake completion keeps the invariant. In particular, queueing goes on exactly while the handshake is in progress, and tunnelling exactly while it is tunnelled |
| SocketModel.HangUpKeepsValid | include/libtorrent/udp_socket.hpp:200 | hung_up keeps the invariant |
| SocketModel.ReadStep | include/libtorrent/udp_socket.hpp:187-189 | No contract of its own; defines a read completion: nothing on a closed socket, only a re-arm when a restart is pending, nothing when cancelled, else delivery of the batch, the drained notification and a re-arm; see ReadKeepsValid, RestartedReadOnlyRearms and DeliveriesFirstMatch |
| SocketModel.ReadKeepsValid | include/libtorrent/udp_socket.hpp:186-189 | on_read keeps the invariant, whatever the observers' hooks did |
| SocketModel.PerformKeepsValid | include/libtorrent/udp_socket.hpp:84-108 | Every event that can happen keeps the invariant |
| SocketModel.ValidThroughout | include/libtorrent/udp_socket.hpp:84-108 | The invariant holds after any sequence of events |
| SocketModel.ClosedIsInert | include/libtorrent/udp_socket.hpp:94 | On a closed socket every event keeps it closed with an empty queue and never raises the outstanding count. Nothing reaches the network, the proxy or the observers, every send fails as on a closed descriptor, and bind is refused |
| SocketModel.CloseIsFinal | include/libtorrent/udp_socket.hpp:262-265 | After close, through any events, the socket stays closed, the queue stays empty and the outstanding count only goes down |
| SocketModel.CloseIdempotent | include/libtorrent/udp_socket.hpp:94 | Closing twice is closing once |
| SocketModel.QueueKeepsSendOrder | include/libtorrent/udp_socket.hpp:257-260 | While the relay is being set up, packets that may wait are appended to the queue in send order |
| SocketModel.DontQueueIsDropped | include/libtorrent/udp_socket.hpp:78 | A dont_queue packet sent while the relay is being set up is dropped, and the queue is left as it was |
| SocketModel.TunnelFlushesQueue | include/libtorrent/udp_socket.hpp:252-260 | The reply that grants the relay opens the tunnel to it and records it. It flushes the whole queue through the relay in order, each packet reading back as the destination and payload it was queued with, and leaves the queue empty |
| SocketModel.FailureFallsBack | include/libtorrent/udp_socket.hpp:202 | When the handshake fails, the queue is sent on without the proxy: directly to numeric endpoints unless force-proxy is on, and dropped otherwise. Queueing stops |
| SocketModel.AddressesFromTheirReplies | include/libtorrent/udp_socket.hpp:246-255 | m_proxy_addr changes only on a successful name lookup, to the resolved address. The tunnel opens, and m_udp_proxy_addr changes, only on a UDP ASSOCIATE reply that grants that relay |
| SocketModel.RebindRestartsRead | include/libtorrent/udp_socket.hpp:222-233 | One or more rebinds while the old read is outstanding mark it for restart once. That read's completion only re-arms the read and delivers nothing, so the net effect is the last port alone, with no mark left over for the next read |
| SocketModel.RestartedReadOnlyRearms | include/libtorrent/udp_socket.hpp:226-233 | When m_restart_read is positive, a read completion sets the read up again, decrements the counter by one and delivers nothing, whatever it carried |
| SocketModel.DeliveriesFirstMatch | include/libtorrent/udp_socket.hpp:52-55 | Every delivery of a read is first-match-wins |
| SocketModel.TunnelledArrivals | include/libtorrent/udp_socket.hpp:206 | Through the tunnel, a datagram from the relay is offered under the sender and payload its header names, and one from anywhere else is not offered |
| UdpSocket.UdpSocket.constructor | include/libtorrent/udp_socket.hpp:72 | The socket starts in the initial state |
| UdpSocket.UdpSocket.IsOpen | include/libtorrent/udp_socket.hpp:81 | is_open is always the opposite of is_closed |
| UdpSocket.UdpSocket.IsClosed | include/libtorrent/udp_socket.hpp:101 | is_closed is exactly m_abort |
| UdpSocket.UdpSocket.Subscribe | include/libtorrent/udp_socket.hpp:169-175 | Appends to m_observers, or to m_added_observers while the list is locked |
| UdpSocket.UdpSocket.Unsubscribe | include/libtorrent/udp_socket.hpp:85 | The registry after it is `RemoveObserver` of the registry before it |
| UdpSocket.UdpSocket.SetBufSize | include/libtorrent/udp_socket.hpp:211-219 | The buffer fields after it are `ResizeBuffer` of those before it |
| UdpSocket.UdpSocket.SetForceProxy | include/libtorrent/udp_socket.hpp:99 | Only m_force_proxy changes |
| UdpSocket.UdpSocket.RunHook | include/libtorrent/udp_socket.hpp:169-175 | A hook's calls back into the socket, applied in order, leave the registry as `ApplyAll` says |
| UdpSocket.UdpSocket.WalkObservers | include/libtorrent/udp_socket.hpp:169-178 | The loop over the locked list leaves the registry as `Walk` says, and yields the same observers and the same handled flag |
| UdpSocket.UdpSocket.CallHandler | include/libtorrent/udp_socket.hpp:177-181 | call_handler and call_drained_handler leave the registry as `Dispatch` says, and yield the same observers and the same handled flag |
| UdpSocket.UdpSocket.Transmit | include/libtorrent/udp_socket.hpp:239-244 | The flags decide a packet's fate as `Route` does in the mode they select |
| UdpSocket.UdpSocket.SendPacket | include/libtorrent/udp_socket.hpp:88-92 | A send has the outcome `SendStep` gives, and the packet joins the back of the queue exactly when it is queued |
| UdpSocket.UdpSocket.Send | include/libtorrent/udp_socket.hpp:91-92 | send to an endpoint has the outcome and the new state that `SendStep` gives |
| UdpSocket.UdpSocket.SendHostname | include/libtorrent/udp_socket.hpp:88-89 | send_hostname has the outcome and the new state that `SendStep` gives |
| UdpSocket.UdpSocket.DrainQueue | include/libtorrent/udp_socket.hpp:257-260 | The pop-and-send loop has the outcomes and the new state that `Drain` gives |
| UdpSocket.UdpSocket.SetProxySettings | include/libtorrent/udp_socket.hpp:97 | The new state and the outcomes sent are those `SetProxy` gives |
| UdpSocket.UdpSocket.Advance | include/libtorrent/udp_socket.hpp:190-199 | A handshake completion leaves the state, the bytes written and the outcomes as `HandshakeStep` says |
| UdpSocket.UdpSocket.OnNameLookup | include/libtorrent/udp_socket.hpp:190 | on_name_lookup behaves as `HandshakeStep` at the resolving stage |
| UdpSocket.UdpSocket.OnConnected | include/libtorrent/udp_socket.hpp:192 | on_connected behaves as `HandshakeStep` at the connecting stage |
| UdpSocket.UdpSocket.Handshake1 | include/libtorrent/udp_socket.hpp:193 | handshake1 behaves as `HandshakeStep` once the greeting is written |
| UdpSocket.UdpSocket.Handshake2 | include/libtorrent/udp_socket.hpp:194 | handshake2 behaves as `HandshakeStep` on the method reply |
| UdpSocket.UdpSocket.Handshake3 | include/libtorrent/udp_socket.hpp:195 | handshake3 behaves as `HandshakeStep` once the credentials are written |
| UdpSocket.UdpSocket.Handshake4 | include/libtorrent/udp_socket.hpp:196 | handshake4 behaves as `HandshakeStep` on the authentication status |
| UdpSocket.UdpSocket.Connect1 | include/libtorrent/udp_socket.hpp:198 | connect1 behaves as `HandshakeStep` once the UDP ASSOCIATE request is written |
| UdpSocket.UdpSocket.Connect2 | include/libtorrent/udp_socket.hpp:199 | connect2 behaves as `HandshakeStep` on the UDP ASSOCIATE reply |
| UdpSocket.UdpSocket.OnConnectTimeout | include/libtorrent/udp_socket.hpp:191 | on_connect_timeout behaves as `TimeoutStep`: unless cancelled, the handshake fails and the queue is drained |
| UdpSocket.UdpSocket.HungUp | include/libtorrent/udp_socket.hpp:200 | hung_up behaves as `HangUpStep`: unless cancelled, set_proxy_settings runs again with the same settings |
| UdpSocket.UdpSocket.SetupRead | include/libtorrent/udp_socket.hpp:186 | One more read is outstanding |
| UdpSocket.UdpSocket.Bind | include/libtorrent/udp_socket.hpp:226-233 | The new state and the error are those `BindStep` gives |
| UdpSocket.UdpSocket.Close | include/libtorrent/udp_socket.hpp:94 | The new state is `CloseStep` of the old one |
| UdpSocket.UdpSocket.DeliverBatch | include/libtorrent/udp_socket.hpp:187-189 | The loop over the datagrams of one read leaves the registry and the deliveries as `DeliverAll` says |
| UdpSocket.UdpSocket.OnRead | include/libtorrent/udp_socket.hpp:226-233 | The new state and the deliveries are those `ReadStep` gives |
| FileLayout.Overlap | include/libtorrent/aux_/file_progress.hpp:54-55 | A piece never holds more bytes of a file than the file's size |
| FileLayout.Progress | include/libtorrent/aux_/file_progress.hpp:62-67 | The progress vector has one entry per file |
| FileLayout.ProgressBounded | include/libtorrent/aux_/file_progress.hpp:76-78 | No file's progress ever exceeds its size |
| FileLayout.CompleteIffAllPieces | include/libtorrent/aux_/file_progress.hpp:62-64 | A file's progress reaches its size exactly when every piece that holds a byte of it has passed |
| FileLayout.ProgressAddPiece | include/libtorrent/aux_/file_progress.hpp:54-55 | Counting in a piece not counted before adds exactly its bytes of each file |
| FileLayout.NoPiecesNoProgress | include/libtorrent/aux_/file_progress.hpp:65-67 | Before any piece has passed, every file is at zero |
| FileLayout.Added | include/libtorrent/aux_/file_progress.hpp:54-55 | Counting piece p in once more keeps one entry per file, and adds to each file the bytes p overlaps it by; see ProgressAddPiece |
| FileLayout.NonPadSum | include/libtorrent/aux_/file_progress.hpp:59-60 | No contract of its own; defines m_total_on_disk's value as the sum of the entries of non-pad files; see NonPadSumRaise and OnDiskBounded |
| FileLayout.NonPadSumRaise | include/libtorrent/aux_/file_progress.hpp:59-60 | Raising one file's entry raises the non-pad total by as much, unless the file is a pad file |
| FileLayout.OnDiskBounded | include/libtorrent/aux_/file_progress.hpp:76-79 | The bytes on disk never exceed the total size of the non-pad files |
| FileProgress.HaveIn | include/libtorrent/aux_/file_progress.hpp:41-42 | The pieces init counts in are exactly the picker's pieces that exist in the torrent |
| FileProgress.CompletedBelowExactly | include/libtorrent/aux_/file_progress.hpp:54-55 | The completed files are listed once each, in increasing order, and are exactly the non-pad files the piece made reach their size |
| FileProgress.FileProgress.Valid | include/libtorrent/aux_/file_progress.hpp:59-79 | No contract of its own; the invariant check_invariant guards: once allocated, the vector is exactly the bytes the counted pieces give each file, the sizes and pad flags are the torrent's, and m_total_on_disk is the sum over the non-pad files |
| FileProgress.FileProgress.constructor | include/libtorrent/aux_/file_progress.hpp:59-67 | The vector starts unallocated and the total starts at zero |
| FileProgress.FileProgress.Empty | include/libtorrent/aux_/file_progress.hpp:51 | empty holds exactly when the vector is unallocated |
| FileProgress.FileProgress.TotalOnDisk | include/libtorrent/aux_/file_progress.hpp:46-49 | total_on_disk returns the stored total and changes nothing |
| FileProgress.FileProgress.ExportProgress | include/libtorrent/aux_/file_progress.hpp:44 | The exported vector equals m_file_progress, and nothing changes |
| FileProgress.FileProgress.Clear | include/libtorrent/aux_/file_progress.hpp:52 | The vector and the invariant-check fields are freed, and the total keeps its value |
| FileProgress.FileProgress.Raise | include/libtorrent/aux_/file_progress.hpp:54-55 | One file's entry grows by the given bytes and nothing else in the vector changes; the total stays the sum over non-pad files; the result is true exactly when a non-pad file has just reached its size |
| FileProgress.FileProgress.Credit | include/libtorrent/aux_/file_progress.hpp:54-55 | The loop over the files adds to each file exactly the bytes the piece holds of it, keeps the total equal to the non-pad sum, and lists the files completed, in file order |
| FileProgress.FileProgress.Init | include/libtorrent/aux_/file_progress.hpp:41-42 | An allocated vector is left alone. Otherwise the vector becomes the progress of the picker's pieces, with the total as its non-pad sum and the invariant-check fields filled in |
| FileProgress.FileProgress.Update | include/libtorrent/aux_/file_progress.hpp:54-55 | Before allocation nothing changes. Otherwise a piece not counted before is counted in: the have-set grows by it, each file gains the bytes the piece holds, and the callback receives, in increasing order, exactly the files this made complete. The invariant (total equals the non-pad sum, no file above its size) is kept |

## Left out

- Method bodies: udp_socket.hpp and file_progress.hpp declare the methods
  of `udp_socket` and `file_progress` but, apart from the inline accessors,
  do not define them. Each method's behaviour is taken from its
  declaration, the comments on the fields, and RFC 1928 and RFC 1929.
- The OS socket, the proxy's TCP socket, the resolver, the timer and the
  event loop: each asynchronous operation is a completion `Status`
  (succeeded, cancelled or errored), plus the bytes read or the address
  resolved. Each completion handler is one atomic method call.
- Would-block on send, `on_writable`, `call_writable_handler` and
  `m_write_subscribed`: the model's sends always complete, so `Flush`
  never stops early to wait for the socket to become writable.
- The receive buffer itself (`m_buf`), and allocation failure when it is
  resized: the buffer is modelled by its size alone.
- The notification of observers when the proxy fails: a failed handshake
  is recorded in `Stage` with its reason, and nothing is dispatched.
- UdpSocket.UdpSocket.Bind: udp_socket.hpp declares `bind` (line 93) but
  does not define it; its behaviour is taken from the field comments at
  udp_socket.hpp:222-233 and RFC 1928. A rebind marks the outstanding
  read for restart, and a read already marked stays marked once (`m_restart_read` becomes
  `m_outstanding_op`), because the socket has a single read slot. A counter
  raised on every rebind would make the completion after a second rebind
  swallow the first real datagram on the new socket. `Valid` keeps
  `m_restart_read <= m_outstanding_op <= 1` on an open socket, so the
  8-bit counters are modelled as unbounded naturals; `m_bind_port` is
  16-bit.
- UdpSocket.UdpSocket.SendPacket: there is no cap on the queue's depth. A
  packet that may wait is always queued while the relay is being set up.
- UdpSocket.UdpSocket.SendHostname: without a tunnel, a host-name
  destination is always dropped. The model does not try to read the name
  as an IP address literal first.
- UdpSocket.UdpSocket.OnRead: a failed read is modelled as a cancelled
  one, which ends the read loop, or as receive errors inside the batch,
  which are offered to the observers. Which OS error codes fall on which
  side is not modelled.
- `local_port`, `get_proxy_settings`, `proxy_addr`, `local_endpoint`,
  `get_option`/`set_option` and `get_io_service`: these are plain getters
  and socket-option wrappers.
- UdpSocket.UdpSocket.SetProxySettings: a proxy kind that is neither
  SOCKS5 kind ends any handshake and drains the queue directly. The model
  does not distinguish SOCKS4, HTTP or I2P settings any further.
- The handshake's scratch buffer `m_tmp_buf` (270 bytes): the model
  builds each message as a sequence of any length. Credentials are bounded
  only by the one-octet lengths of RFC 1929 (`CredentialsFit`), so a
  request of up to 513 bytes is written, and the buffer's bound is not
  modelled.
- The drained notification: observers are told the socket is drained
  after every batch read (`ReadStep`), as the comment on `socket_drained`
  says. Draining the send queue (`Drain`, `DrainQueue`) notifies nobody.
- SocketModel.SetProxy: storing SOCKS5 settings starts the name lookup
  at once. The model does not defer the handshake until the first send
  while a proxy is configured.
- Observer hooks: while it handles an event, an observer can only
  subscribe, unsubscribe or resize the buffer (`HookOp`). Sending a reply
  or closing the socket from inside the handler is not modelled.
- UdpSocket.UdpSocket.HungUp: the handshake is restarted at once with
  the same settings. It does not wait for the next send.
- UdpSocket.UdpSocket.constructor: the initial receive-buffer size is a
  parameter. The io_service argument is left out.
- The `TORRENT_USE_ASSERTS` debug counters and `m_magic`, and the
  handler-storage plumbing (`make_read_handler`, `m_read_handler_storage`).
- FileProgress.FileProgress.Update: a file of size zero is never reported
  complete, because no piece holds a byte of it. Pad files are never
  reported either.
- FileProgress.FileProgress.Init: the total is recomputed from the pieces
  counted in, while `clear` keeps the old total.
- `file_storage` and `piece_picker` are abstracted:
  - `file_storage` as the files' sizes, their pad flags and the piece
    length, with the files laid end to end;
  - `piece_picker` as the set of pieces it has.
- The `completed_cb` callback: `Update` returns the indices of the
  completed files, in the order the callback would receive them.
- The 64-bit widths of `m_total_on_disk` and of the progress entries: they
  are unbounded naturals here, and the progress bound keeps them below the
  torrent's size.
