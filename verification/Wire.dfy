/** Datagrams between client and server, byte by byte (VPN/include/protocol.h,
    VPN/src/common/protocol.c, and the packet handlers of both programs). */
module Wire {
  import opened Bytes
  import opened Crypto
  import opened Session

  const CONNECT_REQ: byte := 0x01
  const CONNECT_RESP: byte := 0x02
  const DATA: byte := 0x03
  const PING: byte := 0x04
  const PONG: byte := 0x05
  const DISCONNECT: byte := 0x06
  const VERSION: byte := 0x01

  const U32: nat := 0x1_0000_0000

  const CONNECT_REQ_SIZE: nat := 80
  const CONNECT_RESP_SIZE: nat := 57

  /** init_vpn_header; length, sequence and timestamp wrap to their field widths. */
  function Header(kind: byte, length: nat, sequence: nat, timestamp: nat): (h: seq<byte>)
    ensures |h| == HEADER_SIZE && h[0] == kind
  {
    [kind, VERSION] + ToBe(length, 2) + ToBe(sequence, 4) + ToBe(timestamp, 8)
  }

  datatype Fields = Fields(kind: byte, version: byte, length: nat, sequence: nat, timestamp: nat)

  /** Reading a header back (ntohs, ntohl, be64toh). */
  function HeaderFields(h: seq<byte>): Fields
    requires |h| >= HEADER_SIZE
  {
    Fields(h[0], h[1], FromBe(h[2..4]), FromBe(h[4..8]), FromBe(h[8..16]))
  }

  lemma HeaderRoundTrip(kind: byte, length: nat, sequence: nat, timestamp: nat, payload: seq<byte>)
    requires length < 0x1_0000 && sequence < 0x1_0000_0000 && timestamp < 0x1_0000_0000_0000_0000
    ensures HeaderFields(Header(kind, length, sequence, timestamp) + payload)
            == Fields(kind, VERSION, length, sequence, timestamp)
  {
    var h := Header(kind, length, sequence, timestamp) + payload;
    assert h[2..4] == ToBe(length, 2);
    assert h[4..8] == ToBe(sequence, 4);
    assert h[8..16] == ToBe(timestamp, 8);
    Be16(length);
    Be32(sequence);
    Be64(timestamp);
  }

  /** The server's view of its 2048-byte receive buffer after a datagram of n bytes. A short
      CONNECT_REQ is not refused: the key field is read from the buffer all the same. */
  function Classify(buf: seq<byte>, n: nat): Packet
    requires n <= |buf| == UDP_BUFFER
  {
    if n < HEADER_SIZE then Other
    else if buf[0] == CONNECT_REQ then ConnectReq(buf[48..80])
    else if buf[0] == DATA then Data(buf[HEADER_SIZE..n])
    else if buf[0] == PING then Ping
    else if buf[0] == DISCONNECT then Disconnect
    else Other
  }

  /** The buffer after receiving a datagram over whatever it held before. */
  function Received(datagram: seq<byte>, stale: seq<byte>): (buf: seq<byte>)
    requires |stale| == UDP_BUFFER
    ensures |buf| == UDP_BUFFER
  {
    if |datagram| >= UDP_BUFFER then datagram[..UDP_BUFFER] else datagram + stale[|datagram|..]
  }

  function ReceivedLength(datagram: seq<byte>): nat {
    if |datagram| >= UDP_BUFFER then UDP_BUFFER else |datagram|
  }

  // ---- Connecting ----

  /** strncpy of the user name into the 32-byte field of the request: at most 31 bytes, padded
      with NUL up to there. The last byte stays as the packet buffer had it. */
  function NameField(username: seq<byte>, stale: seq<byte>): (field: seq<byte>)
    requires |stale| == 32
    ensures |field| == 32
  {
    (if |username| >= 31 then username[..31] else username + Zeros(31 - |username|)) + stale[31..]
  }

  /** The field starts with the whole name and ends it. */
  ghost predicate Names(field: seq<byte>, username: seq<byte>) {
    |username| < |field| && field[..|username|] == username && field[|username|] == 0
  }

  /** The request carries the name if and only if it has at most 30 bytes, or 31 when the byte
      left at the end of the field happens to be NUL. */
  lemma NameSentIff(username: seq<byte>, stale: seq<byte>)
    requires |stale| == 32
    ensures Names(NameField(username, stale), username)
            <==> |username| <= 30 || (|username| == 31 && stale[31] == 0)
    ensures forall i :: 0 <= i < 32 ==>
              NameField(username, stale)[i] ==
              if i == 31 then stale[i] else if i < |username| then username[i] else 0
  {
    var field := NameField(username, stale);
    if |username| <= 31 {
      assert field[..|username|] == username;
    }
  }

  /** vpn_connect's request; name is its 32-byte username field. */
  function ConnectRequest(name: seq<byte>, pub: seq<byte>, sequence: nat, timestamp: nat): seq<byte> {
    Header(CONNECT_REQ, CONNECT_REQ_SIZE - HEADER_SIZE, sequence, timestamp) + name + pub
  }

  lemma ConnectRequestArrives(name: seq<byte>, pub: seq<byte>, sequence: nat, timestamp: nat, stale: seq<byte>)
    requires |name| == 32 && |pub| == KEY_SIZE && |stale| == UDP_BUFFER
    ensures var d := ConnectRequest(name, pub, sequence, timestamp);
            Classify(Received(d, stale), ReceivedLength(d)) == ConnectReq(pub)
  {
    var d := ConnectRequest(name, pub, sequence, timestamp);
    assert Received(d, stale)[48..80] == pub;
  }

  /** The CONNECT_RESP the server sends. */
  function ConnectResponse(out: Output, sequence: nat, timestamp: nat): seq<byte>
    requires out.ConnectResp?
  {
    Header(CONNECT_RESP, CONNECT_RESP_SIZE - HEADER_SIZE, sequence, timestamp)
    + [0] + ToBe(out.vpnIp, 4) + ToBe(out.sessionId, 4) + out.serverPub
  }

  /** What vpn_connect keeps of the answer. */
  datatype Joined = Joined(vpnIp: nat, sessionId: nat, serverPub: seq<byte>, sessionKey: seq<byte>)

  /** The second half of vpn_connect, over its receive buffer. */
  function Join(c: Suite, priv: seq<byte>, buf: seq<byte>): Option<Joined>
    requires |buf| == UDP_BUFFER
  {
    if buf[0] != CONNECT_RESP || buf[16] != 0 then None
    else match SessionKey(c, priv, buf[25..57])
      case None => None
      case Some(key) => Some(Joined(FromBe(buf[17..21]), FromBe(buf[21..25]), buf[25..57], key))
  }

  /** The server's answer gives the client its address and session id, as far as their
      32-bit fields hold them, and the session key of the handshake. */
  lemma ResponseJoins(c: Suite, priv: seq<byte>, out: Output, sequence: nat, timestamp: nat, stale: seq<byte>)
    requires out.ConnectResp? && |out.serverPub| == KEY_SIZE && |stale| == UDP_BUFFER
    ensures var key := SessionKey(c, priv, out.serverPub);
            Join(c, priv, Received(ConnectResponse(out, sequence, timestamp), stale))
            == if key.None? then None
               else Some(Joined(out.vpnIp % U32, out.sessionId % U32, out.serverPub, key.value))
  {
    var buf := Received(ConnectResponse(out, sequence, timestamp), stale);
    assert buf[17..21] == ToBe(out.vpnIp, 4);
    assert buf[21..25] == ToBe(out.sessionId, 4);
    assert buf[25..57] == out.serverPub;
    FromToBe(out.vpnIp, 4);
    FromToBe(out.sessionId, 4);
    Widths();
  }

  // ---- Data ----

  datatype Sending = Sent(datagram: seq<byte>) | Overruns

  /** The client's handle_tun_to_udp after a read of p. Overruns: the nonce, ciphertext and
      tag, or the datagram built from them, would pass the end of a 2048-byte buffer. */
  function Upload(c: Suite, key: seq<byte>, nonce: seq<byte>, p: seq<byte>, sequence: nat, timestamp: nat): Sending {
    var body := nonce + c.seal(key, nonce, p);
    if |body| > UDP_BUFFER || HEADER_SIZE + |body| > UDP_BUFFER then Overruns
    else Sent(Header(DATA, |body|, sequence, timestamp) + body)
  }

  /** The datagram the server sends for UdpData. */
  function Download(out: Output, sequence: nat, timestamp: nat): seq<byte>
    requires out.UdpData?
  {
    Header(DATA, |out.body|, sequence, timestamp) + out.body
  }

  /** The datagram, if any, an output of the server goes out as. */
  function Datagram(out: Output, sequence: nat, timestamp: nat): seq<byte> {
    match out
    case ConnectResp(_, _, _, _) => ConnectResponse(out, sequence, timestamp)
    case Pong(_) => Header(PONG, 0, sequence, timestamp)
    case UdpData(_, _) => Download(out, sequence, timestamp)
    case _ => []
  }

  function Successor(sequence: nat): (r: nat)
    ensures r < U32
  {
    (sequence + 1) % U32
  }

  /** Each datagram takes the next sequence number. */
  function NextSequence(sequence: nat, out: Output): nat {
    if out.ConnectResp? || out.Pong? || out.UdpData? then Successor(sequence) else sequence
  }

  /** The output goes out as the datagram, moving the sequence number from q to q'. */
  ghost predicate Emits(out: Output, q: nat, q': nat, timestamp: nat, datagram: seq<byte>) {
    q' == NextSequence(q, out) && datagram == Datagram(out, q', timestamp)
  }

  /** What the client does with a datagram. Undefined: the ciphertext length, computed
      without a check, goes below zero. */
  datatype Handled = Nothing | PongSeen | ToTun(ipPacket: seq<byte>) | Undefined

  /** The client's handle_udp_to_tun. */
  function ClientReceive(c: Suite, key: seq<byte>, buf: seq<byte>, n: nat): Handled
    requires n <= |buf| == UDP_BUFFER
  {
    if n < HEADER_SIZE then Nothing
    else if buf[0] == PONG then PongSeen
    else if buf[0] == DATA then
      if n < HEADER_SIZE + NONCE_SIZE then Undefined
      else match c.open(key, buf[HEADER_SIZE..HEADER_SIZE + NONCE_SIZE], buf[HEADER_SIZE + NONCE_SIZE..n])
        case None => Nothing
        case Some(plain) => ToTun(plain)
    else Nothing
  }

  /** The bare headers the programs exchange arrive as what they are: the client's PING and
      DISCONNECT at the server, the server's PONG at the client. */
  lemma HeadersArrive(c: Suite, key: seq<byte>, sequence: nat, timestamp: nat, stale: seq<byte>)
    requires |stale| == UDP_BUFFER
    ensures Classify(Received(Header(PING, 0, sequence, timestamp), stale), HEADER_SIZE) == Packet.Ping
    ensures Classify(Received(Header(DISCONNECT, 0, sequence, timestamp), stale), HEADER_SIZE) == Packet.Disconnect
    ensures ClientReceive(c, key, Received(Header(PONG, 0, sequence, timestamp), stale), HEADER_SIZE) == PongSeen
  {
  }
}
