/** Octets, ports and the optional-value wrapper shared by the proxy codec,
    the SOCKS5 handshake and the socket itself. */
module Wire {

  datatype Option<+T> = None | Some(value: T)

  /** One octet on the wire. */
  type Byte = x: int | 0 <= x < 0x100

  /** A 16-bit UDP or TCP port number. */
  type Port = x: int | 0 <= x < 0x1_0000

  /** Reads a port written in network byte order (high byte first). */
  function ReadPort(hi: Byte, lo: Byte): (p: Port)
    ensures p / 0x100 == hi && p % 0x100 == lo
  {
    hi * 0x100 + lo
  }

  /** Writes a port in network byte order, as RFC 1928 writes DST.PORT and BND.PORT. */
  function PortBytes(p: Port): (r: seq<Byte>)
    ensures |r| == 2 && ReadPort(r[0], r[1]) == p
  {
    [p / 0x100, p % 0x100]
  }
}
