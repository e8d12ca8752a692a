/** The client program: its link state, keys and packet buffers, updated step by step by its
    main loop (VPN/src/client/vpn_client.c). */
module VpnClient {
  import opened Bytes
  import opened Crypto
  import opened Backoff
  import opened ClientLoop
  import Keepalive
  import S = Session
  import Wire
  import EnclaveProcess

  const U32: nat := 0x1_0000_0000

  /** A datagram that arrives, and the clock when it is handled. */
  datatype Arrival = Arrival(datagram: seq<byte>, now: int)

  /** What one turn of the loop meets: the answer to a CONNECT_REQ, if one is sent and
      answered; whether TUN setup works; select's result; the clock at the keepalive check;
      the timestamp of a PING, if one is sent, and whether the send works; the datagram
      waiting on the socket, if any. */
  datatype Env = Env(answer: Option<Arrival>, tunOk: bool, activity: int, now: int, timestamp: nat, sent: bool,
    waiting: Option<Arrival>)

  /** The PONG a turn handles, by the clock. */
  ghost function PongOf(e: Env): Option<int> {
    if e.activity > 0 && e.waiting.Some? && |e.waiting.value.datagram| >= S.HEADER_SIZE
       && e.waiting.value.datagram[0] == Wire.PONG
    then Some(e.waiting.value.now) else None
  }

  /** The buffer holds a CONNECT_RESP with status 0. */
  predicate Succeeded(buffer: seq<byte>)
    requires |buffer| == S.UDP_BUFFER
  {
    buffer[0] == 2 && buffer[16] == 0
  }

  /** When the answer joins, by the clock. */
  ghost function JoinedAt(c: Suite, priv: seq<byte>, answer: Option<Arrival>, stale: seq<byte>): Option<int>
    requires |stale| == S.UDP_BUFFER
  {
    if answer.Some? && Wire.Join(c, priv, Wire.Received(answer.value.datagram, stale)).Some?
    then Some(answer.value.now) else None
  }

  ghost function RoundOf(c: Suite, priv: seq<byte>, e: Env, stale: seq<byte>): Round
    requires |stale| == S.UDP_BUFFER
  {
    Round(JoinedAt(c, priv, e.answer, stale), e.tunOk, e.activity, Keepalive.Pass(e.now, e.sent, PongOf(e)))
  }

  /** The turns as rounds of the loop. */
  ghost function Rounds(c: Suite, priv: seq<byte>, envs: seq<Env>, stale: seq<byte>): (rounds: seq<Round>)
    requires |stale| == S.UDP_BUFFER
    ensures |rounds| == |envs|
  {
    seq(|envs|, i requires 0 <= i < |envs| => RoundOf(c, priv, envs[i], stale))
  }

  class Client {
    const settings: Settings
    const priv: seq<byte>
    const pub: seq<byte>
    var serverPub: seq<byte>
    var sessionKey: seq<byte>
    var vpnIp: nat
    var sessionId: nat
    var connected: bool
    var lastPingSent: int
    var lastPongReceived: int
    var reconnectAttempts: int
    var backoffSeconds: int
    var sequence: nat

    ghost function Link(): Keepalive.Link
      reads this
    {
      Keepalive.Link(lastPingSent, lastPongReceived, !connected)
    }

    ghost function Counters(): Retry
      reads this
    {
      Retry(reconnectAttempts, backoffSeconds)
    }

    constructor (c: Suite, settings: Settings, priv: seq<byte>)
      ensures this.settings == settings && this.priv == priv && pub == c.publicOf(priv)
      ensures !connected && Counters() == Start && sequence == 0
    {
      this.settings := settings;
      this.priv, pub := priv, c.publicOf(priv);
      serverPub, sessionKey, vpnIp, sessionId := Zeros(KEY_SIZE), Zeros(KEY_SIZE), 0, 0;
      connected := false;
      lastPingSent, lastPongReceived := 0, 0;
      reconnectAttempts, backoffSeconds := 0, INITIAL_BACKOFF;
      sequence := 0;
    }

    // ---- Connecting ----

    /** The first half of vpn_connect: the CONNECT_REQ, built in the packet buffer over
        whatever the name field held. */
    method Request(username: seq<byte>, stale: seq<byte>, timestamp: nat) returns (request: seq<byte>)
      requires sequence < U32 && |stale| == 32
      modifies this`sequence
      ensures sequence == Wire.Successor(old(sequence))
      ensures request == Wire.ConnectRequest(Wire.NameField(username, stale), pub, sequence, timestamp)
    {
      var name := new byte[32](_ => 0);
      EnclaveProcess.Copy(name, 0, stale);
      assert name[..] == name[0..0 + 32] == stale;
      var n := if |username| < 31 then |username| else 31;
      EnclaveProcess.Copy(name, 0, username[..n]);
      assert name[0..0 + n] == username[..n] && name[n..] == stale[n..];
      EnclaveProcess.Copy(name, n, Zeros(31 - n));
      assert name[..] == name[..n] + name[n..31] + name[31..];
      assert name[31..] == stale[n..][31 - n..] == stale[31..];
      sequence := Wire.Successor(sequence);
      var head := Wire.Header(Wire.CONNECT_REQ, Wire.CONNECT_REQ_SIZE - S.HEADER_SIZE, sequence, timestamp);
      request := head + name[..] + pub;
    }

    /** The second half: the answer, received over whatever the buffer held. Only a
        successful answer touches the link, the counters and the session key. */
    method Accept(c: Suite, answer: Option<Arrival>, stale: seq<byte>) returns (ok: bool)
      requires |stale| == S.UDP_BUFFER
      modifies this`serverPub, this`sessionKey, this`vpnIp, this`sessionId, this`connected
      modifies this`lastPingSent, this`lastPongReceived, this`reconnectAttempts, this`backoffSeconds
      ensures ok <==> answer.Some? && Wire.Join(c, priv, Wire.Received(answer.value.datagram, stale)).Some?
      ensures ok ==>
                && Wire.Join(c, priv, Wire.Received(answer.value.datagram, stale))
                   == Some(Wire.Joined(vpnIp, sessionId, serverPub, sessionKey))
                && Link() == Keepalive.Link(answer.value.now, answer.value.now, false)
                && Counters() == Start
      ensures !ok ==> Link() == old(Link()) && Counters() == old(Counters()) && sessionKey == old(sessionKey)
      ensures if answer.Some? && Succeeded(Wire.Received(answer.value.datagram, stale))
              then var buffer := Wire.Received(answer.value.datagram, stale);
                   vpnIp == FromBe(buffer[17..21]) && sessionId == FromBe(buffer[21..25]) && serverPub == buffer[25..57]
              else vpnIp == old(vpnIp) && sessionId == old(sessionId) && serverPub == old(serverPub)
    {
      if answer.None? {
        return false;
      }
      var buffer := Wire.Received(answer.value.datagram, stale);
      if buffer[0] != Wire.CONNECT_RESP || buffer[16] != 0 {
        return false;
      }
      vpnIp := FromBe(buffer[17..21]);
      sessionId := FromBe(buffer[21..25]);
      serverPub := buffer[25..57];
      var secret := c.ecdh(priv, serverPub);
      if secret.None? {
        return false;
      }
      sessionKey := c.kdf(secret.value);
      connected := true;
      reconnectAttempts := 0;
      backoffSeconds := INITIAL_BACKOFF;
      lastPongReceived := answer.value.now;
      lastPingSent := answer.value.now;
      return true;
    }

    /** attempt_reconnect: seconds slept, and whether the link is up again. */
    method AttemptReconnect(c: Suite, answer: Option<Arrival>, stale: seq<byte>, tunOk: bool)
      returns (ok: bool, slept: int)
      requires |stale| == S.UDP_BUFFER
      modifies this
      ensures var joined := JoinedAt(c, priv, answer, stale);
              var tried := old(reconnectAttempts) < settings.maxReconnectAttempts;
              && slept == Fail(settings.maxReconnectAttempts, old(Counters())).1
              && (ok <==> tried && joined.Some? && tunOk)
              && Link() == (if !tried then old(Link())
                            else if joined.Some? then Keepalive.Link(joined.value, joined.value, false)
                            else old(Link()).(lost := true))
              && Counters() == (if tried && joined.Some? then Start
                                else Fail(settings.maxReconnectAttempts, old(Counters())).0)
      ensures sequence == old(sequence)
    {
      if reconnectAttempts >= settings.maxReconnectAttempts {
        return false, 0;
      }
      reconnectAttempts := reconnectAttempts + 1;
      slept := backoffSeconds;
      backoffSeconds := backoffSeconds * 2;
      if backoffSeconds > MAX_BACKOFF {
        backoffSeconds := MAX_BACKOFF;
      }
      connected := false;
      ok := Accept(c, answer, stale);
      if !ok {
        return;
      }
      ok := tunOk;
    }

    // ---- Packets ----

    /** handle_tun_to_udp on a packet of n bytes. Its buffers demand that it fits them. */
    method HandleTunToUdp(c: Suite, buffer: array<byte>, n: nat, nonce: seq<byte>, timestamp: nat)
      returns (wire: seq<byte>)
      requires sequence < U32 && n <= buffer.Length == S.UDP_BUFFER && |nonce| == NONCE_SIZE && Lawful(c)
      requires Wire.Upload(c, sessionKey, nonce, buffer[..n], 0, 0).Sent?
      modifies this`sequence
      ensures sequence == Wire.Successor(old(sequence))
      ensures Wire.Sent(wire) == Wire.Upload(c, sessionKey, nonce, buffer[..n], sequence, timestamp)
    {
      var ciphertext := new byte[S.UDP_BUFFER](_ => 0);
      var sealed := c.seal(sessionKey, nonce, buffer[..n]);
      EnclaveProcess.Copy(ciphertext, NONCE_SIZE, sealed);
      EnclaveProcess.Copy(ciphertext, 0, nonce);
      var length := NONCE_SIZE + n + MAC_SIZE;
      assert ciphertext[..length] == nonce + sealed by {
        assert ciphertext[0..NONCE_SIZE] == nonce;
        assert ciphertext[NONCE_SIZE..length] == ciphertext[NONCE_SIZE..][..|sealed|] == sealed;
      }
      wire := Encapsulate(ciphertext[..length], timestamp);
    }

    /** A DATA packet in its buffer: header, then ciphertext. */
    method Encapsulate(body: seq<byte>, timestamp: nat) returns (wire: seq<byte>)
      requires sequence < U32 && S.HEADER_SIZE + |body| <= S.UDP_BUFFER
      modifies this`sequence
      ensures sequence == Wire.Successor(old(sequence))
      ensures wire == Wire.Header(Wire.DATA, |body|, sequence, timestamp) + body
    {
      sequence := Wire.Successor(sequence);
      var packetBuffer := new byte[S.UDP_BUFFER](_ => 0);
      EnclaveProcess.Copy(packetBuffer, 0, Wire.Header(Wire.DATA, |body|, sequence, timestamp));
      ghost var head := packetBuffer[..S.HEADER_SIZE];
      assert head == packetBuffer[0..0 + S.HEADER_SIZE];
      EnclaveProcess.Copy(packetBuffer, S.HEADER_SIZE, body);
      var total := S.HEADER_SIZE + |body|;
      assert packetBuffer[..total] == packetBuffer[..S.HEADER_SIZE] + packetBuffer[S.HEADER_SIZE..total];
      wire := packetBuffer[..total];
    }

    /** handle_udp_to_tun on a datagram in the buffer; a PONG moves the clock of the link. */
    method HandleUdpToTun(c: Suite, buffer: seq<byte>, n: nat, now: int) returns (handled: Wire.Handled)
      requires n <= |buffer| == S.UDP_BUFFER
      modifies this`lastPongReceived
      ensures handled == Wire.ClientReceive(c, sessionKey, buffer, n)
      ensures lastPongReceived == if handled.PongSeen? then now else old(lastPongReceived)
    {
      if n < S.HEADER_SIZE {
        return Wire.Nothing;
      }
      if buffer[0] == Wire.PONG {
        lastPongReceived := now;
        return Wire.PongSeen;
      }
      if buffer[0] != Wire.DATA {
        return Wire.Nothing;
      }
      if n < S.HEADER_SIZE + NONCE_SIZE {
        return Wire.Undefined;
      }
      var nonce := buffer[S.HEADER_SIZE..S.HEADER_SIZE + NONCE_SIZE];
      var plain := c.open(sessionKey, nonce, buffer[S.HEADER_SIZE + NONCE_SIZE..n]);
      handled := if plain.None? then Wire.Nothing else Wire.ToTun(plain.value);
    }

    // ---- The loop ----

    /** send_ping, up to the send: a bare header. */
    method SendPing(timestamp: nat) returns (ping: seq<byte>)
      requires sequence < U32
      modifies this`sequence
      ensures sequence == Wire.Successor(old(sequence)) && ping == Wire.Header(Wire.PING, 0, sequence, timestamp)
    {
      sequence := Wire.Successor(sequence);
      var buffer := new byte[S.HEADER_SIZE](_ => 0);
      EnclaveProcess.Copy(buffer, 0, Wire.Header(Wire.PING, 0, sequence, timestamp));
      assert buffer[..] == buffer[0..0 + S.HEADER_SIZE];
      ping := buffer[..];
    }

    /** check_keepalive: false means the connection is lost. A PING that is due goes out under
        the next sequence number, and counts as sent if the send works. */
    method CheckKeepalive(now: int, sent: bool, timestamp: nat) returns (ok: bool, ping: Option<seq<byte>>)
      requires connected && sequence < U32
      modifies this`lastPingSent, this`sequence
      ensures var l := Keepalive.Check(settings.keepalive, old(Link()), now, sent);
              ok == !l.lost && lastPingSent == l.lastPing && lastPongReceived == l.lastPong
      ensures sequence < U32
      ensures if Keepalive.PingDue(settings.keepalive, old(Link()), now)
              then sequence == Wire.Successor(old(sequence))
                   && ping == Some(Wire.Header(Wire.PING, 0, sequence, timestamp))
              else sequence == old(sequence) && ping == None
    {
      ping := None;
      if now - lastPongReceived > settings.keepalive.pongTimeout {
        return false, ping;
      }
      if now - lastPingSent >= settings.keepalive.interval {
        var datagram := SendPing(timestamp);
        ping := Some(datagram);
        if sent {
          lastPingSent := now;
        }
      }
      return true, ping;
    }

    /** The part of a turn after any reconnection: one pass of the keepalive machine, the
        datagram handled being a PONG or not. */
    method Pass(c: Suite, e: Env, stale: seq<byte>) returns (ping: Option<seq<byte>>)
      requires connected && sequence < U32 && |stale| == S.UDP_BUFFER
      modifies this`connected, this`lastPingSent, this`lastPongReceived, this`sequence
      ensures sequence < U32
      ensures ping == if Keepalive.PingDue(settings.keepalive, old(Link()), e.now)
                      then Some(Wire.Header(Wire.PING, 0, Wire.Successor(old(sequence)), e.timestamp)) else None
      ensures Link() == Keepalive.Turn(settings.keepalive, old(Link()), Keepalive.Pass(e.now, e.sent, PongOf(e)))
    {
      var alive: bool;
      alive, ping := CheckKeepalive(e.now, e.sent, e.timestamp);
      if !alive {
        connected := false;
        return;
      }
      if e.activity > 0 && e.waiting.Some? {
        var d := e.waiting.value.datagram;
        var _ := HandleUdpToTun(c, Wire.Received(d, stale), Wire.ReceivedLength(d), e.waiting.value.now);
      }
    }

    /** One turn of the main loop; over means the loop is left. */
    method LoopTurn(c: Suite, e: Env, stale: seq<byte>, before: seq<int>) returns (waits: seq<int>, over: bool)
      requires Counters() == Start && sequence < U32 && |stale| == S.UDP_BUFFER
      modifies this
      ensures sequence < U32
      ensures Phase(Link(), Counters(), waits, over)
              == Turn(settings, Phase(old(Link()), old(Counters()), before, false), RoundOf(c, priv, e, stale))
    {
      waits, over := before, false;
      if !connected {
        if !settings.autoReconnect {
          return waits, true;
        }
        var ok, slept := AttemptReconnect(c, e.answer, stale, e.tunOk);
        if slept > 0 {
          waits := waits + [slept];
        }
        if !ok {
          return waits, true;
        }
      }
      if e.activity < 0 {
        return waits, true;
      }
      var _ := Pass(c, e, stale);
    }

    /** The main loop over whatever it meets, from a successful first connection: the link, the
        counters and the waits are those of the loop machine over the same turns, so what is
        proved of the machine holds of the program. turns counts the turns not left early. */
    method MainLoop(c: Suite, envs: seq<Env>, stale: seq<byte>) returns (waits: seq<int>, turns: nat)
      requires connected && lastPingSent == lastPongReceived && Counters() == Start
      requires sequence < U32 && |stale| == S.UDP_BUFFER
      modifies this
      ensures var p := PhaseAt(settings, old(lastPingSent), Rounds(c, priv, envs, stale), |envs|);
              Link() == p.link && Counters() == p.retry && waits == p.waits && (p.over <==> turns < |envs|)
      ensures turns <= |envs| && !PhaseAt(settings, old(lastPingSent), Rounds(c, priv, envs, stale), turns).over
    {
      waits, turns := [], 0;
      ghost var t0, rounds := lastPingSent, Rounds(c, priv, envs, stale);
      while turns < |envs|
        invariant turns <= |envs| && sequence < U32
        invariant PhaseAt(settings, t0, rounds, turns) == Phase(Link(), Counters(), waits, false)
      {
        AlwaysFirst(settings, t0, rounds, turns);
        var over: bool;
        waits, over := LoopTurn(c, envs[turns], stale, waits);
        if over {
          OverStays(settings, t0, rounds, turns + 1, |envs|);
          break;
        }
        turns := turns + 1;
      }
    }
  }
}
