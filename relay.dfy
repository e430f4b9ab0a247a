/** The UDP request header of RFC 1928 section 7, which wraps every datagram
    sent to or received from a SOCKS5 UDP relay:

      RSV(2) FRAG(1) ATYP(1) DST.ADDR DST.PORT(2) DATA

    The same ATYP/ADDR/PORT triple appears in the UDP ASSOCIATE request and
    reply (sections 4 and 6), so its codec lives here too. */
module Relay {
  import opened Wire

  type IPv4 = s: seq<Byte> | |s| == 4 witness [0, 0, 0, 0]
  type IPv6 = s: seq<Byte> | |s| == 16 witness [0, 0, 0, 0, 0, 0, 0, 0, 0, 0, 0, 0, 0, 0, 0, 0]

  datatype Address = V4(v4: IPv4) | V6(v6: IPv6)

  /** A numeric UDP endpoint. */
  datatype Endpoint = Endpoint(address: Address, port: Port)

  /** Where a relayed datagram goes to or comes from: a numeric endpoint, or a
      host name (raw bytes, resolved by the proxy) and a port. */
  datatype Target = AtEndpoint(ep: Endpoint) | AtHost(host: seq<Byte>, port: Port)

  const ATYP_IPV4: Byte := 1
  const ATYP_DOMAIN: Byte := 3
  const ATYP_IPV6: Byte := 4

  /** A host name is length-prefixed by one octet, so at most this many bytes of it fit. */
  const MAX_HOST_LENGTH := 255

  predicate Encodable(t: Target) {
    t.AtHost? ==> |t.host| <= MAX_HOST_LENGTH
  }

  /** The host name as it is written: cut to its first 255 bytes. */
  function HostOnWire(host: seq<Byte>): (r: seq<Byte>)
    ensures |r| <= MAX_HOST_LENGTH && r <= host
    ensures |host| <= MAX_HOST_LENGTH ==> r == host
  {
    if |host| <= MAX_HOST_LENGTH then host else host[..MAX_HOST_LENGTH]
  }

  /** ATYP, the address and the port, in network order. */
  function EncodeTarget(t: Target): (r: seq<Byte>)
  {
    match t
    case AtEndpoint(Endpoint(V4(a), p)) => [ATYP_IPV4] + a + PortBytes(p)
    case AtEndpoint(Endpoint(V6(a), p)) => [ATYP_IPV6] + a + PortBytes(p)
    case AtHost(h, p) =>
      var name := HostOnWire(h);
      [ATYP_DOMAIN, |name|] + name + PortBytes(p)
  }

  /** A decoded ATYP/ADDR/PORT triple and how many bytes it took. */
  datatype Decoded = Decoded(target: Target, size: nat)

  /** Reads an ATYP/ADDR/PORT triple from the front of `b`. An unknown address
      type or a triple cut short yields None. Whatever is accepted is exactly
      what the encoder writes for the decoded target. */
  function DecodeTarget(b: seq<Byte>): (r: Option<Decoded>)
    ensures r.Some? ==> Encodable(r.value.target)
    ensures r.Some? ==> r.value.size <= |b| && b[..r.value.size] == EncodeTarget(r.value.target)
    ensures |b| > 0 && b[0] !in {ATYP_IPV4, ATYP_DOMAIN, ATYP_IPV6} ==> r.None?
  {
    if |b| == 0 then None
    else if b[0] == ATYP_IPV4 then
      if |b| < 7 then None
      else
        var p := ReadPort(b[5], b[6]);
        assert b[..7] == [ATYP_IPV4] + b[1..5] + PortBytes(p);
        Some(Decoded(AtEndpoint(Endpoint(V4(b[1..5]), p)), 7))
    else if b[0] == ATYP_IPV6 then
      if |b| < 19 then None
      else
        var p := ReadPort(b[17], b[18]);
        assert b[..19] == [ATYP_IPV6] + b[1..17] + PortBytes(p);
        Some(Decoded(AtEndpoint(Endpoint(V6(b[1..17]), p)), 19))
    else if b[0] == ATYP_DOMAIN then
      if |b| < 2 || |b| < 4 + b[1] as int then None
      else
        var n: int := b[1];
        var p := ReadPort(b[2 + n], b[3 + n]);
        assert b[..4 + n] == [ATYP_DOMAIN, n] + b[2..2 + n] + PortBytes(p);
        Some(Decoded(AtHost(b[2..2 + n], p), 4 + n))
    else None
  }

  /** Decoding an encoded triple gives it back, whatever follows it. */
  lemma {:induction false} DecodeEncodeTarget(t: Target, rest: seq<Byte>)
    requires Encodable(t)
    ensures DecodeTarget(EncodeTarget(t) + rest) == Some(Decoded(t, |EncodeTarget(t)|))
  {
    var b := EncodeTarget(t) + rest;
    match t
    case AtEndpoint(Endpoint(V4(a), p)) =>
      assert b[1..5] == a;
      assert b[5] == PortBytes(p)[0] && b[6] == PortBytes(p)[1];
    case AtEndpoint(Endpoint(V6(a), p)) =>
      assert b[1..17] == a;
      assert b[17] == PortBytes(p)[0] && b[18] == PortBytes(p)[1];
    case AtHost(h, p) =>
      assert HostOnWire(h) == h;
      assert b[1] == |h|;
      assert b[2..2 + |h|] == h;
      assert b[2 + |h|] == PortBytes(p)[0] && b[3 + |h|] == PortBytes(p)[1];
  }

  /** A datagram read from the relay: its original sender and its payload. */
  datatype Relayed = Relayed(peer: Target, payload: seq<Byte>)

  /** Prefixes `payload` with the relay header addressed to `to`: RSV is zero
      and FRAG is zero (this side never fragments). */
  function Wrap(to: Target, payload: seq<Byte>): (r: seq<Byte>)
  {
    [0, 0, 0] + EncodeTarget(to) + payload
  }

  /** Parses the relay header of a datagram received from the relay. A
      datagram shorter than a header, with a nonzero FRAG (fragments are not
      supported), an unknown ATYP or an address cut short is dropped (None).
      RSV is skipped without being checked. Whatever is accepted is, after
      RSV, exactly what Wrap writes for the result. */
  function Unwrap(b: seq<Byte>): (r: Option<Relayed>)
    ensures |b| >= 3 && b[2] != 0 ==> r.None?
    ensures |b| >= 4 && b[3] !in {ATYP_IPV4, ATYP_DOMAIN, ATYP_IPV6} ==> r.None?
    ensures r.Some? ==> Encodable(r.value.peer)
    ensures r.Some? ==> |b| >= 3 && b[2..] == Wrap(r.value.peer, r.value.payload)[2..]
  {
    if |b| < 3 || b[2] != 0 then None
    else
      match DecodeTarget(b[3..])
      case None => None
      case Some(d) =>
        assert b[3..] == b[3..][..d.size] + b[3 + d.size..];
        Some(Relayed(d.target, b[3 + d.size..]))
  }

  /** The round trip: what Wrap writes, Unwrap reads back, for numeric
      endpoints and for host names of at most 255 bytes. */
  lemma {:induction false} UnwrapWrap(t: Target, payload: seq<Byte>)
    requires Encodable(t)
    ensures Unwrap(Wrap(t, payload)) == Some(Relayed(t, payload))
  {
    var b := Wrap(t, payload);
    assert b[3..] == EncodeTarget(t) + payload;
    DecodeEncodeTarget(t, payload);
    assert b[3 + |EncodeTarget(t)|..] == payload;
  }

  /** A host name longer than 255 bytes reaches the relay cut to its first
      255 bytes; port and payload are unaffected. */
  lemma {:induction false} UnwrapWrapLongHost(host: seq<Byte>, port: Port, payload: seq<Byte>)
    requires |host| > MAX_HOST_LENGTH
    ensures Unwrap(Wrap(AtHost(host, port), payload))
         == Some(Relayed(AtHost(host[..MAX_HOST_LENGTH], port), payload))
  {
    var cut := AtHost(host[..MAX_HOST_LENGTH], port);
    assert EncodeTarget(AtHost(host, port)) == EncodeTarget(cut);
    UnwrapWrap(cut, payload);
  }
}
