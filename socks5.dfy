/** The SOCKS5 control-connection handshake that sets up a UDP relay:
    method negotiation (RFC 1928 section 3), the optional username/password
    sub-negotiation (RFC 1929) and the UDP ASSOCIATE request and its reply
    (RFC 1928 sections 4 and 6).

    The socket runs the handshake as a chain of completion handlers
    (on_name_lookup, on_connected, handshake1..handshake4, socks_forward_udp,
    connect1, connect2). Here the chain is an explicit Stage, and each handler's
    decision is the pure step function Next. */
module Socks5 {
  import opened Wire
  import opened Relay

  const SOCKS_VERSION: Byte := 5
  const METHOD_NO_AUTH: Byte := 0
  const METHOD_USER_PASS: Byte := 2
  /** Version octet of the RFC 1929 sub-negotiation. */
  const AUTH_VERSION: Byte := 1
  const AUTH_SUCCESS: Byte := 0
  const CMD_UDP_ASSOCIATE: Byte := 3
  const REPLY_SUCCEEDED: Byte := 0

  /** The proxy kinds the socket distinguishes: only the two SOCKS5 kinds open
      a tunnel; every other kind (SOCKS4, HTTP, I2P) is ignored by the socket. */
  datatype ProxyType = NoProxy | Socks5 | Socks5Pw | OtherProxy

  datatype ProxySettings = ProxySettings(
    kind: ProxyType,
    hostname: seq<Byte>,
    port: Port,
    username: seq<Byte>,
    password: seq<Byte>)

  predicate UsesSocks5(ps: ProxySettings) {
    ps.kind == Socks5 || ps.kind == Socks5Pw
  }

  /** Whether the greeting offers username/password authentication. */
  predicate OffersPassword(ps: ProxySettings) {
    ps.kind == Socks5Pw && ps.username != []
  }

  /** The version/method-selection message sent once the control connection is
      up: no-authentication is always offered, username/password only when
      the settings ask for it and carry a user name. */
  function Greeting(ps: ProxySettings): (r: seq<Byte>)
    ensures |r| >= 3 && r[0] == SOCKS_VERSION && r[1] == |r| - 2
    ensures METHOD_NO_AUTH in r[2..]
    ensures METHOD_USER_PASS in r[2..] <==> OffersPassword(ps)
  {
    if OffersPassword(ps) then [SOCKS_VERSION, 2, METHOD_NO_AUTH, METHOD_USER_PASS]
    else [SOCKS_VERSION, 1, METHOD_NO_AUTH]
  }

  /** Credentials fit the RFC 1929 request: a user name of 1 to 255 bytes and
      a password of at most 255 bytes, each length-prefixed by one octet. */
  predicate CredentialsFit(ps: ProxySettings) {
    0 < |ps.username| <= 255 && |ps.password| <= 255
  }

  /** The RFC 1929 username/password request: VER ULEN UNAME PLEN PASSWD. */
  function AuthRequest(user: seq<Byte>, pass: seq<Byte>): (r: seq<Byte>)
    requires |user| <= 255 && |pass| <= 255
  {
    [AUTH_VERSION, |user|] + user + [|pass|] + pass
  }

  /** How an RFC 1929 server reads the request: the reference against which
      AuthRequest is checked. */
  function ReadAuthRequest(b: seq<Byte>): (r: Option<(seq<Byte>, seq<Byte>)>)
  {
    if |b| < 2 || b[0] != AUTH_VERSION || |b| < 3 + b[1] as int then None
    else
      var ulen: int := b[1];
      var plen: int := b[2 + ulen];
      if |b| != 3 + ulen + plen then None
      else Some((b[2..2 + ulen], b[3 + ulen..]))
  }

  lemma {:induction false} AuthRequestRoundTrip(user: seq<Byte>, pass: seq<Byte>)
    requires |user| <= 255 && |pass| <= 255
    ensures ReadAuthRequest(AuthRequest(user, pass)) == Some((user, pass))
  {
    var b := AuthRequest(user, pass);
    assert b[1] == |user|;
    assert b[2..2 + |user|] == user;
    assert b[2 + |user|] == |pass|;
    assert b[3 + |user|..] == pass;
  }

  /** 0.0.0.0:0, the address the client will send from when it is not known
      in advance, which RFC 1928 section 4 allows. */
  const UNSPECIFIED: Target := AtEndpoint(Endpoint(V4([0, 0, 0, 0]), 0))

  /** The UDP ASSOCIATE request: VER CMD RSV, then the unspecified address. */
  function AssociateRequest(): (r: seq<Byte>)
    ensures |r| == 10 && r[..3] == [SOCKS_VERSION, CMD_UDP_ASSOCIATE, 0]
  {
    [SOCKS_VERSION, CMD_UDP_ASSOCIATE, 0, ATYP_IPV4, 0, 0, 0, 0, 0, 0]
  }

  /** The request's address part is the unspecified address, read back as such. */
  lemma AssociateRequestAddress()
    ensures DecodeTarget(AssociateRequest()[3..]) == Some(Decoded(UNSPECIFIED, 7))
  {
    assert PortBytes(0) == [0, 0];
    assert AssociateRequest()[3..] == EncodeTarget(UNSPECIFIED) + [];
    DecodeEncodeTarget(UNSPECIFIED, []);
  }

  /** What a UDP ASSOCIATE reply says. */
  datatype AssociateReply = Granted(relay: Endpoint) | Refused | Malformed

  /** A reply as a server writes it: VER REP RSV ATYP BND.ADDR BND.PORT. */
  function ReplyBytes(rep: Byte, bound: Target): seq<Byte> {
    [SOCKS_VERSION, rep, 0] + EncodeTarget(bound)
  }

  /** Reads the UDP ASSOCIATE reply. Success carries the relay endpoint
      (BND.ADDR/BND.PORT), where datagrams must be sent from now on; a reply
      naming the relay by host name cannot be used as an endpoint. */
  function ParseAssociateReply(b: seq<Byte>): (r: AssociateReply)
    ensures r.Granted? ==> |b| >= 3 && b[..2] == [SOCKS_VERSION, REPLY_SUCCEEDED]
    ensures r.Granted? ==> |b| >= 3 && EncodeTarget(AtEndpoint(r.relay)) <= b[3..]
    ensures r.Refused? <==> |b| >= 3 && b[0] == SOCKS_VERSION && b[1] != REPLY_SUCCEEDED
  {
    if |b| < 3 || b[0] != SOCKS_VERSION then Malformed
    else if b[1] != REPLY_SUCCEEDED then Refused
    else
      match DecodeTarget(b[3..])
      case Some(Decoded(AtEndpoint(ep), n)) =>
        Granted(ep)
      case _ => Malformed
  }

  lemma {:induction false} ParseReplyBytes(rep: Byte, bound: Target, rest: seq<Byte>)
    requires Encodable(bound)
    ensures ParseAssociateReply(ReplyBytes(rep, bound) + rest)
         == if rep != REPLY_SUCCEEDED then Refused
            else if bound.AtEndpoint? then Granted(bound.ep)
            else Malformed
  {
    var b := ReplyBytes(rep, bound) + rest;
    assert b[3..] == EncodeTarget(bound) + rest;
    DecodeEncodeTarget(bound, rest);
  }

  /** Why a handshake gave up. */
  datatype Failure =
    | ResolveFailed       // the proxy host name did not resolve
    | ConnectFailed       // the control connection could not be opened
    | ConnectTimedOut     // ... nor within the connect timeout
    | ConnectionLost      // a read or write on the control connection failed
    | BadVersion          // the method reply is not SOCKS version 5
    | NoAcceptableMethod  // the server chose a method this side cannot do
    | AuthRejected        // the RFC 1929 status is not success
    | AssociateRejected   // the UDP ASSOCIATE reply has a nonzero REP
    | MalformedReply      // the UDP ASSOCIATE reply cannot be read

  /** Where the handshake stands; each stage in progress has exactly one
      operation outstanding, whose completion handler is named alongside. */
  datatype Stage =
    | Idle                // no SOCKS5 proxy in use
    | Resolving           // on_name_lookup
    | Connecting          // on_connected (and on_connect_timeout)
    | SendingGreeting     // handshake1
    | ReadingMethod       // handshake2
    | SendingCredentials  // handshake3
    | ReadingAuthStatus   // handshake4
    | SendingAssociate    // connect1
    | ReadingAssociate    // connect2
    | Tunnelled(relay: Endpoint)  // hung_up
    | Failed(reason: Failure)
  {
    predicate InProgress() {
      !(Idle? || Tunnelled? || Failed?)
    }
  }

  /** The outcome of one asynchronous operation: whether it succeeded, and for
      a read the bytes read. */
  datatype Completion = Completion(ok: bool, data: seq<Byte>)

  /** The stage after a completion, and the bytes then written to the proxy. */
  datatype Step = Step(next: Stage, send: seq<Byte>)

  /** The decision on the server's method choice (handshake2). */
  function OnMethodReply(reply: seq<Byte>, ps: ProxySettings): (r: Step)
    ensures r.next.SendingAssociate? ==> |reply| == 2 && reply[0] == SOCKS_VERSION && reply[1] == METHOD_NO_AUTH
    ensures r.next.SendingCredentials? ==>
      |reply| == 2 && reply[0] == SOCKS_VERSION && reply[1] == METHOD_USER_PASS && CredentialsFit(ps)
    ensures r.next.SendingAssociate? || r.next.SendingCredentials? || r.next.Failed?
    ensures |reply| == 2 && reply[0] == SOCKS_VERSION && reply[1] == METHOD_NO_AUTH ==>
      r == Step(SendingAssociate, AssociateRequest())
    ensures |reply| == 2 && reply[0] == SOCKS_VERSION && reply[1] == METHOD_USER_PASS && CredentialsFit(ps) ==>
      r == Step(SendingCredentials, AuthRequest(ps.username, ps.password))
    ensures r.next == Failed(BadVersion) <==> |reply| != 2 || reply[0] != SOCKS_VERSION
    ensures r.next.Failed? ==> r.send == []
  {
    if |reply| != 2 || reply[0] != SOCKS_VERSION then Step(Failed(BadVersion), [])
    else if reply[1] == METHOD_NO_AUTH then Step(SendingAssociate, AssociateRequest())
    else if reply[1] == METHOD_USER_PASS && CredentialsFit(ps) then
      Step(SendingCredentials, AuthRequest(ps.username, ps.password))
    else Step(Failed(NoAcceptableMethod), [])
  }

  /** One completion handler of the chain: a failed operation ends the
      handshake with the reason of its stage; a successful one moves to the
      next stage and says what to write next. */
  function Next(s: Stage, c: Completion, ps: ProxySettings): (r: Step)
    requires s.InProgress()
  {
    match s
    case Resolving =>
      if c.ok then Step(Connecting, []) else Step(Failed(ResolveFailed), [])
    case Connecting =>
      if c.ok then Step(SendingGreeting, Greeting(ps)) else Step(Failed(ConnectFailed), [])
    case SendingGreeting =>
      if c.ok then Step(ReadingMethod, []) else Step(Failed(ConnectionLost), [])
    case ReadingMethod =>
      if c.ok then OnMethodReply(c.data, ps) else Step(Failed(ConnectionLost), [])
    case SendingCredentials =>
      if c.ok then Step(ReadingAuthStatus, []) else Step(Failed(ConnectionLost), [])
    case ReadingAuthStatus =>
      if !c.ok then Step(Failed(ConnectionLost), [])
      else if c.data == [AUTH_VERSION, AUTH_SUCCESS] then Step(SendingAssociate, AssociateRequest())
      else Step(Failed(AuthRejected), [])
    case SendingAssociate =>
      if c.ok then Step(ReadingAssociate, []) else Step(Failed(ConnectionLost), [])
    case ReadingAssociate =>
      if !c.ok then Step(Failed(ConnectionLost), [])
      else
        match ParseAssociateReply(c.data)
        case Granted(relay) => Step(Tunnelled(relay), [])
        case Refused => Step(Failed(AssociateRejected), [])
        case Malformed => Step(Failed(MalformedReply), [])
  }

  /** The successful successor of a stage in progress; `auth` says whether the
      server chose username/password. */
  function Succ(s: Stage, auth: bool): Stage
    requires s.InProgress() && s != ReadingAssociate
  {
    match s
    case Resolving => Connecting
    case Connecting => SendingGreeting
    case SendingGreeting => ReadingMethod
    case ReadingMethod => if auth then SendingCredentials else SendingAssociate
    case SendingCredentials => ReadingAuthStatus
    case ReadingAuthStatus => SendingAssociate
    case SendingAssociate => ReadingAssociate
  }

  /** Position of a stage in progress along the chain. */
  function Rank(s: Stage): nat
    requires s.InProgress()
  {
    match s
    case Resolving => 0
    case Connecting => 1
    case SendingGreeting => 2
    case ReadingMethod => 3
    case SendingCredentials => 4
    case ReadingAuthStatus => 5
    case SendingAssociate => 6
    case ReadingAssociate => 7
  }

  /** The stages a successful handshake passes through from `s` up to the
      UDP ASSOCIATE reply. */
  function PathFrom(s: Stage, auth: bool): seq<Stage>
    requires s.InProgress()
    decreases 7 - Rank(s)
  {
    if s == ReadingAssociate then [s] else [s] + PathFrom(Succ(s, auth), auth)
  }

  /** Every step of the chain either fails or moves to the successful
      successor: the chain never skips a stage other than authentication, and
      Tunnelled is entered only from the UDP ASSOCIATE reply, carrying the
      relay endpoint the reply names. */
  lemma {:induction false} NextFollowsChain(s: Stage, c: Completion, ps: ProxySettings)
    requires s.InProgress()
    ensures var n := Next(s, c, ps).next;
      n.Failed?
      || (s != ReadingAssociate && n == Succ(s, n == SendingCredentials))
      || (s == ReadingAssociate && c.ok && n == Tunnelled(ParseAssociateReply(c.data).relay)
          && ParseAssociateReply(c.data).Granted?)
    ensures Next(s, c, ps).next == SendingCredentials ==> CredentialsFit(ps)
  {
    if s == ReadingMethod && c.ok {
      var r := OnMethodReply(c.data, ps);
    }
  }

  /** What each completion handler does, in both directions: a failed
      operation always ends the handshake and writes nothing; a successful
      write, name lookup or connection always moves on to the next stage,
      and only the connection writes something there, the greeting; the
      RFC 1929 status moves on to the UDP ASSOCIATE request exactly when it
      reports success; and the UDP ASSOCIATE reply opens the tunnel exactly
      when it grants a relay. */
  lemma NextSends(s: Stage, c: Completion, ps: ProxySettings)
    requires s.InProgress()
    ensures !c.ok ==> Next(s, c, ps).next.Failed? && Next(s, c, ps).send == []
    ensures c.ok && s in {Resolving, SendingGreeting, SendingCredentials, SendingAssociate} ==>
      Next(s, c, ps) == Step(Succ(s, false), [])
    ensures c.ok && s == Connecting ==> Next(s, c, ps) == Step(SendingGreeting, Greeting(ps))
    ensures c.ok && s == ReadingMethod ==> Next(s, c, ps) == OnMethodReply(c.data, ps)
    ensures c.ok && s == ReadingAuthStatus ==>
      if c.data == [AUTH_VERSION, AUTH_SUCCESS] then Next(s, c, ps) == Step(SendingAssociate, AssociateRequest())
      else Next(s, c, ps) == Step(Failed(AuthRejected), [])
    ensures c.ok && s == ReadingAssociate ==>
      (Next(s, c, ps).next.Tunnelled? <==> ParseAssociateReply(c.data).Granted?)
      && Next(s, c, ps).send == []
  {
  }

  /** The stages visited from `s` while the completions `cs` arrive, ending
      at the first stage that is no longer in progress (or when `cs` runs out). */
  function Run(s: Stage, cs: seq<Completion>, ps: ProxySettings): (t: seq<Stage>)
    ensures |t| >= 1 && t[0] == s && |t| <= |cs| + 1
    decreases |cs|
  {
    if !s.InProgress() || cs == [] then [s]
    else [s] + Run(Next(s, cs[0], ps).next, cs[1..], ps)
  }

  lemma {:induction false} PathFromPastMethod(s: Stage)
    requires s.InProgress() && Rank(s) > 3
    ensures PathFrom(s, true) == PathFrom(s, false)
    ensures SendingCredentials !in PathFrom(s, false)[1..]
    decreases 7 - Rank(s)
  {
    if s != ReadingAssociate {
      PathFromPastMethod(Succ(s, false));
    }
  }

  /** A handshake that ends Tunnelled went through every stage of the chain,
      in order: resolve, connect, greeting, method reply, then (only when the
      server chose it and the credentials fit) the username/password exchange,
      then the UDP ASSOCIATE request and reply; and the tunnel's relay is the
      endpoint named by that reply. */
  lemma {:induction false} TunnelOnlyThroughHandshake(s: Stage, cs: seq<Completion>, ps: ProxySettings)
    requires s.InProgress()
    requires Run(s, cs, ps)[|Run(s, cs, ps)| - 1].Tunnelled?
    ensures var t := Run(s, cs, ps);
      t == PathFrom(s, false) + [t[|t| - 1]]
      || (CredentialsFit(ps) && t == PathFrom(s, true) + [t[|t| - 1]])
    ensures var t := Run(s, cs, ps);
      |t| >= 2 && cs[|t| - 2].ok
      && ParseAssociateReply(cs[|t| - 2].data) == Granted(t[|t| - 1].relay)
    decreases |cs|
  {
    var t := Run(s, cs, ps);
    var n := Next(s, cs[0], ps).next;
    NextFollowsChain(s, cs[0], ps);
    var rest := Run(n, cs[1..], ps);
    assert t == [s] + rest;
    if s == ReadingAssociate {
      assert rest == [n];
    } else {
      assert n.InProgress();
      TunnelOnlyThroughHandshake(n, cs[1..], ps);
      ExtendPath(s, n, rest, ps);
    }
  }

  /** One step of the induction above: prefixing a stage to a path from its
      successor gives a path from that stage. */
  lemma {:induction false} ExtendPath(s: Stage, n: Stage, rest: seq<Stage>, ps: ProxySettings)
    requires s.InProgress() && s != ReadingAssociate && n.InProgress()
    requires n == Succ(s, n == SendingCredentials)
    requires n == SendingCredentials ==> CredentialsFit(ps)
    requires |rest| >= 1
    requires rest == PathFrom(n, false) + [rest[|rest| - 1]]
          || (CredentialsFit(ps) && rest == PathFrom(n, true) + [rest[|rest| - 1]])
    ensures var t := [s] + rest;
      t == PathFrom(s, false) + [rest[|rest| - 1]]
      || (CredentialsFit(ps) && t == PathFrom(s, true) + [rest[|rest| - 1]])
  {
    var last := rest[|rest| - 1];
    if s == ReadingMethod {
      PathFromPastMethod(n);
      if n == SendingCredentials {
        assert [s] + rest == PathFrom(s, true) + [last];
      } else {
        assert [s] + rest == PathFrom(s, false) + [last];
      }
    } else {
      assert n == Succ(s, false) == Succ(s, true);
      if rest == PathFrom(n, false) + [last] {
        assert [s] + rest == PathFrom(s, false) + [last];
      } else {
        assert [s] + rest == PathFrom(s, true) + [last];
      }
    }
  }

  /** The full handshake from resolution offers two paths, and only the second
      one contains the username/password exchange. */
  lemma {:induction false} PathFromBeforeAuth(s: Stage, auth: bool)
    requires s.InProgress() && Rank(s) <= 3
    ensures (SendingCredentials in PathFrom(s, auth)) == auth
    decreases 7 - Rank(s)
  {
    if s == ReadingMethod {
      PathFromPastMethod(Succ(s, auth));
      if !auth {
        assert PathFrom(s, auth) == [s] + PathFrom(SendingAssociate, false);
        assert PathFrom(SendingAssociate, false) == [SendingAssociate, ReadingAssociate];
      }
    } else {
      PathFromBeforeAuth(Succ(s, auth), auth);
    }
  }
}
