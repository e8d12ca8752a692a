/** The server program: its handlers over the client table, the socket to the enclave and
    fixed packet buffers (VPN/src/server/vpn_server.c, VPN/src/server/enclave_client.c).
    Every handler is the step of Session on the view. */
module VpnServer {
  import opened Bytes
  import opened Crypto
  import opened Session
  import opened EnclaveProcess
  import K = KeyTable
  import T = ClientTable
  import Ipc
  import Wire
  import ClientManager

  const U32: nat := 0x1_0000_0000

  /** What a turn of the event loop finds: a datagram (received over stale buffer contents),
      a packet on the TUN device, or nothing within the second. */
  datatype Input =
    | FromNet(datagram: seq<byte>, stale: seq<byte>, from: T.Addr, now: int, sessionId: nat)
    | FromTun(ipPacket: seq<byte>, sent: bool, now: int)
    | Quiet(now: int)

  /** Inputs as read into the buffers: a packet from the TUN device has at most 2048 bytes. */
  predicate Fits(i: Input) {
    match i
    case FromNet(_, stale, _, _, _) => |stale| == UDP_BUFFER
    case FromTun(p, _, _) => |p| <= UDP_BUFFER
    case Quiet(_) => true
  }

  function EventOf(i: Input, nonce: seq<byte>): Event
    requires Fits(i)
  {
    match i
    case FromNet(d, stale, from, now, id) =>
      Udp(from, Wire.Classify(Wire.Received(d, stale), Wire.ReceivedLength(d)), now, id)
    case FromTun(p, sent, now) => TunRead(p, nonce, sent, now)
    case Quiet(now) => Idle(now)
  }

  function EventsOf(inputs: seq<Input>, nonceAt: nat -> seq<byte>): (events: seq<Event>)
    requires forall i :: 0 <= i < |inputs| ==> Fits(inputs[i])
    ensures |events| == |inputs|
  {
    seq(|inputs|, i requires 0 <= i < |inputs| => EventOf(inputs[i], nonceAt(i)))
  }

  /** What the run over the events does in step i. */
  ghost function OutputAt(c: Suite, priv: seq<byte>, start: int, events: seq<Event>, i: nat): Output
    requires i < |events|
  {
    Observed(Step(c, Run(c, priv, start, events[..i]).s, events[i]).1)
  }

  /** No step of the run over the inputs passes the end of a buffer. */
  ghost predicate NoOverrun(c: Suite, priv: seq<byte>, start: int, events: seq<Event>) {
    forall i :: 0 <= i < |events| ==> !OutputAt(c, priv, start, events, i).Overrun?
  }

  lemma StepFits(c: Suite, s: State, input: Input, nonce: seq<byte>)
    requires Lawful(c) && |nonce| == NONCE_SIZE && Fits(input)
    requires input.FromTun? && |input.ipPacket| > 2004 ==> Route(s.clients, input.ipPacket) == |s.clients.slots|
    ensures !Step(c, s, EventOf(input, nonce)).1.Overrun?
  {
  }

  /** Packets of up to 2004 bytes never overrun, and larger ones not unless they are routed to
      a client. */
  lemma RoutedNowhere(c: Suite, priv: seq<byte>, start: int, inputs: seq<Input>, nonceAt: nat -> seq<byte>)
    requires Lawful(c) && forall i :: |nonceAt(i)| == NONCE_SIZE
    requires forall i :: 0 <= i < |inputs| ==> Fits(inputs[i])
    requires forall i :: 0 <= i < |inputs| && inputs[i].FromTun? && |inputs[i].ipPacket| > 2004 ==>
               var t := Run(c, priv, start, EventsOf(inputs, nonceAt)[..i]).s.clients;
               Route(t, inputs[i].ipPacket) == |t.slots|
    ensures NoOverrun(c, priv, start, EventsOf(inputs, nonceAt))
  {
    var events := EventsOf(inputs, nonceAt);
    forall i | 0 <= i < |events| ensures !OutputAt(c, priv, start, events, i).Overrun? {
      StepFits(c, Run(c, priv, start, events[..i]).s, inputs[i], nonceAt(i));
    }
  }

  lemma RunNext(c: Suite, priv: seq<byte>, start: int, events: seq<Event>, i: nat)
    requires i < |events|
    ensures Run(c, priv, start, events[..i + 1]).s == Step(c, Run(c, priv, start, events[..i]).s, events[i]).0
  {
    assert events[..i + 1][..i] == events[..i];
  }

  /** The sequence number after some outputs. */
  function SequenceAt(first: nat, outs: seq<Output>): nat {
    if outs == [] then first else Wire.NextSequence(SequenceAt(first, outs[..|outs| - 1]), outs[|outs| - 1])
  }

  /** How many of the outputs go out as datagrams. */
  function Sends(outs: seq<Output>): nat {
    if outs == [] then 0
    else
      var last := outs[|outs| - 1];
      Sends(outs[..|outs| - 1]) + if last.ConnectResp? || last.Pong? || last.UdpData? then 1 else 0
  }

  /** Sequence numbers count the datagrams sent, modulo 2^32: none is skipped or repeated before
      the counter wraps around. */
  lemma {:induction false} SequenceCounts(first: nat, outs: seq<Output>)
    requires first < 0x1_0000_0000
    ensures SequenceAt(first, outs) == (first + Sends(outs)) % 0x1_0000_0000
  {
    if outs != [] {
      var before := outs[..|outs| - 1];
      SequenceCounts(first, before);
      StepModulo(first + Sends(before));
    }
  }

  lemma StepModulo(n: nat)
    ensures Wire.Successor(n % 0x1_0000_0000) == (n + 1) % 0x1_0000_0000
  {
  }

  /** Turn i did what step i of the run does, in a datagram with the next number. */
  ghost predicate LoggedAt(c: Suite, priv: seq<byte>, start: int, events: seq<Event>, first: nat,
      timestampAt: nat -> nat, outs: seq<Output>, wires: seq<seq<byte>>, i: nat)
    requires i < |outs| == |wires| <= |events|
  {
    && outs[i] == OutputAt(c, priv, start, events, i)
    && wires[i] == Wire.Datagram(outs[i], SequenceAt(first, outs[..i + 1]), timestampAt(i))
  }

  ghost predicate Logged(c: Suite, priv: seq<byte>, start: int, events: seq<Event>, first: nat,
      timestampAt: nat -> nat, outs: seq<Output>, wires: seq<seq<byte>>)
  {
    && |outs| == |wires| <= |events|
    && forall i :: 0 <= i < |outs| ==> LoggedAt(c, priv, start, events, first, timestampAt, outs, wires, i)
  }

  lemma LogExtends(c: Suite, priv: seq<byte>, start: int, events: seq<Event>, first: nat, timestampAt: nat -> nat,
      outs: seq<Output>, wires: seq<seq<byte>>, out: Output, wire: seq<byte>, q: nat)
    requires Logged(c, priv, start, events, first, timestampAt, outs, wires) && |outs| < |events|
    requires out == OutputAt(c, priv, start, events, |outs|)
    requires Wire.Emits(out, SequenceAt(first, outs), q, timestampAt(|outs|), wire)
    ensures q == SequenceAt(first, outs + [out])
    ensures Logged(c, priv, start, events, first, timestampAt, outs + [out], wires + [wire])
  {
    var outs', wires' := outs + [out], wires + [wire];
    assert outs'[..|outs|] == outs && outs'[..|outs'|] == outs';
    forall i | 0 <= i < |outs'| ensures LoggedAt(c, priv, start, events, first, timestampAt, outs', wires', i) {
      if i < |outs| {
        assert outs'[..i + 1] == outs[..i + 1];
        assert LoggedAt(c, priv, start, events, first, timestampAt, outs, wires, i);
      }
    }
  }

  class Server {
    const table: ClientManager.Manager
    const enclave: Process
    var lastTimeoutCheck: int
    var requestId: nat
    var sequence: nat

    ghost function View(): State
      reads this, table, table.clients, enclave, enclave.km, enclave.km.keys
    {
      State(table.View(), enclave.km.View(), lastTimeoutCheck)
    }

    ghost predicate Valid()
      reads this, table, table.clients, enclave, enclave.km, enclave.km.keys
    {
      table.Valid() && enclave.Valid() && enclave.running && requestId < U32 && sequence < U32
    }

    constructor (c: Suite, priv: seq<byte>, now: int)
      requires Lawful(c)
      ensures Valid() && View() == Boot(c, priv, now)
    {
      table := new ClientManager.Manager();
      enclave := new Process(c, priv);
      lastTimeoutCheck := now;
      requestId := 0;
      sequence := 0;
    }

    // ---- Calls into the enclave ----

    /** send_ipc_request: the bytes go out, the enclave serves them, the reply is parsed. */
    method SendIpcRequest(c: Suite, r: Ipc.Request, nonce: seq<byte>, room: nat) returns (data: Option<seq<byte>>)
      requires Valid() && Lawful(c) && Ipc.Fits(r) && r.command != Ipc.SHUTDOWN && |nonce| == NONCE_SIZE
      modifies enclave`running, enclave.km`count, enclave.km.keys
      ensures Valid() && (enclave.km.View(), data) == Ipc.Call(c, old(enclave.km.View()), r, nonce, room)
    {
      var bytes := Ipc.EncodeRequest(r);
      Ipc.TakeEncodedRequest(r, []);
      assert bytes + [] == bytes;
      assert bytes[9..11] == ToBe(|r.data|, 2);
      Be16(|r.data|);
      var rest, reply := enclave.HandleIpcRequest(c, bytes, nonce);
      match Ipc.TakeResponse(reply)
      case Short(_) => data := None;
      case Whole(resp, _) =>
        data := if |resp.data| > room || !resp.ok then None else Some(resp.data);
    }

    method NextRequest(command: byte, ip: nat, data: seq<byte>) returns (r: Ipc.Request)
      requires requestId < U32
      modifies this`requestId
      ensures requestId < U32 && r == Ipc.Request(command, requestId, ip, data)
    {
      requestId := (requestId + 1) % U32;
      r := Ipc.Request(command, requestId, ip, data);
    }

    method EnclaveHandshake(c: Suite, ip: nat, clientPub: seq<byte>, nonce: seq<byte>)
      returns (serverPub: Option<seq<byte>>)
      requires Valid() && Lawful(c) && ip < U32 && |clientPub| == KEY_SIZE && |nonce| == NONCE_SIZE
      modifies this`requestId, enclave`running, enclave.km`count, enclave.km.keys
      ensures Valid()
      ensures var (k, key) := K.Handshake(c, old(enclave.km.View()), ip, clientPub);
              enclave.km.View() == k && serverPub == if key.None? then None else Some(k.pub)
    {
      var r := NextRequest(Ipc.HANDSHAKE, ip, clientPub);
      Ipc.HandshakeCall(c, enclave.km.View(), requestId, ip, clientPub, nonce);
      var data := SendIpcRequest(c, r, nonce, 2 * KEY_SIZE);
      serverPub := if data.None? then None else Some(data.value[..KEY_SIZE]);
    }

    method EnclaveRemoveKey(c: Suite, ip: nat, nonce: seq<byte>)
      requires Valid() && Lawful(c) && ip < U32 && |nonce| == NONCE_SIZE
      modifies this`requestId, enclave`running, enclave.km`count, enclave.km.keys
      ensures Valid() && enclave.km.View() == K.RemoveKey(old(enclave.km.View()), ip)
    {
      var r := NextRequest(Ipc.REMOVE_KEY, ip, []);
      Ipc.RemoveKeyCall(c, enclave.km.View(), requestId, ip, nonce);
      var _ := SendIpcRequest(c, r, nonce, 0);
    }

    method EnclaveEncrypt(c: Suite, ip: nat, plain: seq<byte>, nonce: seq<byte>) returns (body: Option<seq<byte>>)
      requires Valid() && Lawful(c) && ip < U32 && |plain| <= UDP_BUFFER && |nonce| == NONCE_SIZE
      modifies this`requestId, enclave`running, enclave.km`count, enclave.km.keys
      ensures Valid() && enclave.km.View() == old(enclave.km.View())
      ensures body == Ipc.Outcome(Encrypt(c, old(enclave.km.View()), ip, plain, nonce))
    {
      if |plain| > IPC_MAX_DATA_SIZE {
        return None;
      }
      var r := NextRequest(Ipc.ENCRYPT, ip, plain);
      Ipc.EncryptCall(c, enclave.km.View(), requestId, ip, plain, nonce);
      body := SendIpcRequest(c, r, nonce, Ipc.MAX_DATA);
    }

    method EnclaveDecrypt(c: Suite, ip: nat, body: seq<byte>, nonce: seq<byte>) returns (plain: Option<seq<byte>>)
      requires Valid() && Lawful(c) && ip < U32 && |nonce| == NONCE_SIZE
      modifies this`requestId, enclave`running, enclave.km`count, enclave.km.keys
      ensures Valid() && enclave.km.View() == old(enclave.km.View())
      ensures plain == Ipc.Outcome(Decrypt(c, old(enclave.km.View()), ip, body))
    {
      if |body| > IPC_MAX_DATA_SIZE {
        return None;
      }
      var r := NextRequest(Ipc.DECRYPT, ip, body);
      Ipc.DecryptCall(c, enclave.km.View(), requestId, ip, body, nonce);
      plain := SendIpcRequest(c, r, nonce, Ipc.MAX_DATA);
    }

    // ---- Datagrams from the network ----

    /** init_vpn_header, at the start of a packet buffer. */
    method InitVpnHeader(buf: array<byte>, kind: byte, length: nat, timestamp: nat)
      requires buf.Length >= HEADER_SIZE && sequence < U32
      modifies this`sequence, buf
      ensures sequence == Wire.Successor(old(sequence))
      ensures buf[..HEADER_SIZE] == Wire.Header(kind, length, sequence, timestamp)
      ensures buf[HEADER_SIZE..] == old(buf[HEADER_SIZE..])
    {
      sequence := Wire.Successor(sequence);
      Copy(buf, 0, Wire.Header(kind, length, sequence, timestamp));
      assert buf[..HEADER_SIZE] == buf[0..0 + HEADER_SIZE];
    }

    method Respond(resp: Output, timestamp: nat) returns (wire: seq<byte>)
      requires resp.ConnectResp? && sequence < U32
      modifies this`sequence
      ensures sequence == Wire.Successor(old(sequence)) && wire == Wire.ConnectResponse(resp, sequence, timestamp)
    {
      var head := new byte[HEADER_SIZE](_ => 0);
      InitVpnHeader(head, Wire.CONNECT_RESP, Wire.CONNECT_RESP_SIZE - HEADER_SIZE, timestamp);
      assert head[..] == head[..HEADER_SIZE];
      wire := head[..] + [0] + ToBe(resp.vpnIp, 4) + ToBe(resp.sessionId, 4) + resp.serverPub;
    }

    /** A PONG is a bare header. */
    method SendPong(timestamp: nat) returns (wire: seq<byte>)
      requires sequence < U32
      modifies this`sequence
      ensures sequence == Wire.Successor(old(sequence)) && wire == Wire.Header(Wire.PONG, 0, sequence, timestamp)
    {
      var pong := new byte[HEADER_SIZE](_ => 0);
      InitVpnHeader(pong, Wire.PONG, 0, timestamp);
      assert pong[..] == pong[..HEADER_SIZE];
      wire := pong[..];
    }

    /** The ciphertext goes through encrypted_buffer into packet_buffer, behind a header. */
    method Encapsulate(body: seq<byte>, timestamp: nat) returns (wire: seq<byte>)
      requires sequence < U32 && HEADER_SIZE + |body| <= UDP_BUFFER
      modifies this`sequence
      ensures sequence == Wire.Successor(old(sequence))
      ensures wire == Wire.Header(Wire.DATA, |body|, sequence, timestamp) + body
    {
      var encryptedBuffer := new byte[UDP_BUFFER](_ => 0);
      var packetBuffer := new byte[UDP_BUFFER](_ => 0);
      Copy(encryptedBuffer, 0, body);
      InitVpnHeader(packetBuffer, Wire.DATA, |body|, timestamp);
      Copy(packetBuffer, HEADER_SIZE, encryptedBuffer[0..|body|]);
      var total := HEADER_SIZE + |body|;
      assert packetBuffer[..total] == packetBuffer[..HEADER_SIZE] + packetBuffer[HEADER_SIZE..total];
      wire := packetBuffer[..total];
    }

    /** How a handler's outcome goes out. */
    method Send(out: Output, timestamp: nat) returns (wire: seq<byte>)
      requires sequence < U32 && (out.UdpData? ==> HEADER_SIZE + |out.body| <= UDP_BUFFER)
      modifies this`sequence
      ensures sequence < U32 && Wire.Emits(out, old(sequence), sequence, timestamp, wire)
    {
      match out
      case ConnectResp(_, _, _, _) => wire := Respond(out, timestamp);
      case Pong(_) => wire := SendPong(timestamp);
      case UdpData(_, body) => wire := Encapsulate(body, timestamp);
      case _ => wire := [];
    }

    method HandleConnect(c: Suite, pub: seq<byte>, from: T.Addr, now: int, sessionId: nat, nonce: seq<byte>)
      returns (out: Output)
      requires Valid() && Lawful(c) && |pub| == KEY_SIZE && |nonce| == NONCE_SIZE
      modifies this`requestId, table`count, table`nextIp, table.clients
      modifies enclave`running, enclave.km`count, enclave.km.keys
      ensures Valid() && (View(), out) == Connect(c, old(View()), from, pub, now, sessionId)
      ensures out.Silent? || out.ConnectResp?
    {
      T.AddClientKeeps(table.View(), from, now, sessionId);
      var ip := table.AddClient(from, now, sessionId);
      if ip == 0 {
        return Silent;
      }
      ghost var t := table.View();
      assert ip < U32;
      var serverPub := EnclaveHandshake(c, ip, pub, nonce);
      assert table.View() == t;
      if serverPub.None? {
        table.RemoveClient(ip);
        return Silent;
      }
      var i := table.FindByAddr(from);
      out := ConnectResp(from, ip, table.clients[i].sessionId, serverPub.value);
    }

    method HandleData(c: Suite, body: seq<byte>, from: T.Addr, now: int, nonce: seq<byte>) returns (out: Output)
      requires Valid() && Lawful(c) && |nonce| == NONCE_SIZE
      modifies this`requestId, table.clients, enclave`running, enclave.km`count, enclave.km.keys
      ensures Valid() && View() == Receive(c, old(View()), from, body, now).0
      ensures out == Observed(Receive(c, old(View()), from, body, now).1) && (out.Silent? || out.TunWrite?)
    {
      var i := table.FindByAddr(from);
      if i == table.clients.Length {
        return Silent;
      }
      var ip := table.clients[i].vpnIp;
      ghost var s := View();
      assert Receive(c, s, from, body, now).0 == s.(clients := T.Touch(s.clients, i, now));
      table.UpdateActivity(i, now);
      ghost var t := table.View();
      var plain := EnclaveDecrypt(c, ip, body, nonce);
      assert table.View() == t;
      out := if plain.None? then Silent else TunWrite(plain.value);
    }

    method HandlePing(from: T.Addr, now: int) returns (out: Output)
      requires Valid()
      modifies table.clients
      ensures Valid() && (View(), out) == Answer(old(View()), from, now)
    {
      var i := table.FindByAddr(from);
      if i < table.clients.Length {
        table.UpdateActivity(i, now);
      }
      out := Pong(from);
    }

    method HandleDisconnect(c: Suite, from: T.Addr, nonce: seq<byte>)
      requires Valid() && Lawful(c) && |nonce| == NONCE_SIZE
      modifies this`requestId, table`count, table.clients, enclave`running, enclave.km`count, enclave.km.keys
      ensures Valid() && View() == Leave(old(View()), from).0
    {
      var i := table.FindByAddr(from);
      if i < table.clients.Length {
        ghost var t := table.View();
        EnclaveRemoveKey(c, table.clients[i].vpnIp, nonce);
        assert table.View() == t;
        table.RemoveClient(table.clients[i].vpnIp);
      }
    }

    /** The dispatch of handle_udp_to_tun on the datagram in the buffer. */
    method Dispatch(c: Suite, buffer: array<byte>, n: nat, from: T.Addr, now: int, sessionId: nat, nonce: seq<byte>)
      returns (out: Output)
      requires Valid() && Lawful(c) && n <= buffer.Length == UDP_BUFFER && |nonce| == NONCE_SIZE
      modifies this`requestId, table`count, table`nextIp, table.clients
      modifies enclave`running, enclave.km`count, enclave.km.keys
      ensures Valid()
      ensures var (s, o) := Step(c, old(View()), Udp(from, Wire.Classify(old(buffer[..]), n), now, sessionId));
              View() == s && out == Observed(o) && !out.UdpData?
    {
      out := Silent;
      ghost var s := View();
      ghost var step := Step(c, s, Udp(from, Wire.Classify(buffer[..], n), now, sessionId));
      if n < HEADER_SIZE {
        return;
      }
      if buffer[0] == Wire.CONNECT_REQ {
        assert buffer[48..80] == buffer[..][48..80];
        assert step == Connect(c, s, from, buffer[48..80], now, sessionId);
        out := HandleConnect(c, buffer[48..80], from, now, sessionId, nonce);
      } else if buffer[0] == Wire.DATA {
        assert buffer[HEADER_SIZE..n] == buffer[..][HEADER_SIZE..n];
        assert step == Receive(c, s, from, buffer[HEADER_SIZE..n], now);
        out := HandleData(c, buffer[HEADER_SIZE..n], from, now, nonce);
      } else if buffer[0] == Wire.PING {
        assert step == Answer(s, from, now);
        out := HandlePing(from, now);
      } else if buffer[0] == Wire.DISCONNECT {
        assert step == Leave(s, from);
        HandleDisconnect(c, from, nonce);
      }
    }

    /** handle_udp_to_tun: the step of the session on the datagram in the buffer, and what
        goes out. */
    method HandleUdpToTun(c: Suite, buffer: array<byte>, n: nat, from: T.Addr, now: int, sessionId: nat,
        nonce: seq<byte>, timestamp: nat)
      returns (out: Output, wire: seq<byte>)
      requires Valid() && Lawful(c) && n <= buffer.Length == UDP_BUFFER && |nonce| == NONCE_SIZE
      modifies this`requestId, this`sequence, table`count, table`nextIp, table.clients
      modifies enclave`running, enclave.km`count, enclave.km.keys
      ensures Valid()
      ensures var (s, o) := Step(c, old(View()), Udp(from, Wire.Classify(old(buffer[..]), n), now, sessionId));
              View() == s && out == Observed(o)
      ensures Wire.Emits(out, old(sequence), sequence, timestamp, wire)
    {
      out := Dispatch(c, buffer, n, from, now, sessionId, nonce);
      wire := Send(out, timestamp);
    }

    // ---- Packets from the TUN device, and time passing ----

    /** Where a packet of n bytes goes, and sealed as what. */
    method Prepare(c: Suite, buffer: array<byte>, n: nat, nonce: seq<byte>, ghost sent: bool, ghost now: int)
      returns (i: nat, out: Output)
      requires Valid() && Lawful(c) && n <= buffer.Length == UDP_BUFFER && |nonce| == NONCE_SIZE
      requires !Forward(c, View(), buffer[..n], nonce, sent, now).1.Overrun?
      modifies this`requestId, enclave`running, enclave.km`count, enclave.km.keys
      ensures Valid() && View() == old(View())
      ensures out == Observed(Forward(c, View(), buffer[..n], nonce, sent, now).1)
      ensures out.Silent? || out.UdpData?
      ensures out.UdpData? ==> i == Route(table.View(), buffer[..n]) < table.clients.Length
    {
      i, out := table.clients.Length, Silent;
      ghost var packet := buffer[..n];
      if n < 20 || buffer[0] / 16 == 6 {
        return;
      }
      assert buffer[16..20] == packet[16..20];
      i := table.FindByVpnIp(FromBe(buffer[16..20]));
      if i == table.clients.Length {
        return;
      }
      ghost var t := table.View();
      var body := EnclaveEncrypt(c, table.clients[i].vpnIp, buffer[..n], nonce);
      assert table.View() == t;
      if body.Some? {
        out := UdpData(table.clients[i].addr, body.value);
      }
    }

    /** handle_tun_to_udp on a packet of n bytes. Its two packet buffers demand that the
        step does not overrun them. */
    method HandleTunToUdp(c: Suite, buffer: array<byte>, n: nat, nonce: seq<byte>, sent: bool, now: int, timestamp: nat)
      returns (out: Output, wire: seq<byte>)
      requires Valid() && Lawful(c) && n <= buffer.Length == UDP_BUFFER && |nonce| == NONCE_SIZE
      requires !Forward(c, View(), buffer[..n], nonce, sent, now).1.Overrun?
      modifies this`requestId, this`sequence, table.clients, enclave`running, enclave.km`count, enclave.km.keys
      ensures Valid()
      ensures var (s, o) := Step(c, old(View()), TunRead(old(buffer[..n]), nonce, sent, now));
              View() == s && out == Observed(o)
      ensures Wire.Emits(out, old(sequence), sequence, timestamp, wire)
    {
      var i: nat;
      i, out := Prepare(c, buffer, n, nonce, sent, now);
      wire := Send(out, timestamp);
      if sent && out.UdpData? {
        table.UpdateActivity(i, now);
      }
    }

    /** The idle branch of the event loop. */
    method OnIdle(c: Suite, now: int)
      requires Valid()
      modifies this`lastTimeoutCheck, table`count, table.clients
      ensures Valid() && View() == Step(c, old(View()), Idle(now)).0
    {
      if now - lastTimeoutCheck >= SWEEP_PERIOD {
        table.CheckTimeouts(now);
        lastTimeoutCheck := now;
      }
    }

    /** One turn of the event loop. */
    method Turn(c: Suite, input: Input, nonce: seq<byte>, timestamp: nat) returns (out: Output, wire: seq<byte>)
      requires Valid() && Lawful(c) && |nonce| == NONCE_SIZE && Fits(input)
      requires !Step(c, View(), EventOf(input, nonce)).1.Overrun?
      modifies this`requestId, this`sequence, this`lastTimeoutCheck, table`count, table`nextIp, table.clients
      modifies enclave`running, enclave.km`count, enclave.km.keys
      ensures Valid() && View() == Step(c, old(View()), EventOf(input, nonce)).0
      ensures out == Observed(Step(c, old(View()), EventOf(input, nonce)).1)
      ensures Wire.Emits(out, old(sequence), sequence, timestamp, wire)
    {
      var buffer := new byte[UDP_BUFFER](_ => 0);
      match input
      case FromNet(d, stale, from, now, id) =>
        Copy(buffer, 0, Wire.Received(d, stale));
        assert buffer[..] == buffer[0..0 + UDP_BUFFER];
        out, wire := HandleUdpToTun(c, buffer, Wire.ReceivedLength(d), from, now, id, nonce, timestamp);
      case FromTun(p, sent, now) =>
        Copy(buffer, 0, p);
        assert buffer[..|p|] == buffer[0..0 + |p|];
        out, wire := HandleTunToUdp(c, buffer, |p|, nonce, sent, now, timestamp);
      case Quiet(now) =>
        OnIdle(c, now);
        out, wire := Silent, [];
    }

    /** The event loop: from start-up, after any inputs, the program's state is the state of
        the run of the session over their events, so what is proved of every run holds of
        the program; and what it does in each turn is what the run does in that step, each
        datagram carrying its fields and the next sequence number. */
    method EventLoop(c: Suite, priv: seq<byte>, start: int, inputs: seq<Input>, nonceAt: nat -> seq<byte>,
        timestampAt: nat -> nat)
      returns (outs: seq<Output>, wires: seq<seq<byte>>)
      requires Valid() && Lawful(c) && View() == Boot(c, priv, start)
      requires forall i :: |nonceAt(i)| == NONCE_SIZE
      requires forall i :: 0 <= i < |inputs| ==> Fits(inputs[i])
      requires NoOverrun(c, priv, start, EventsOf(inputs, nonceAt))
      modifies this`requestId, this`sequence, this`lastTimeoutCheck, table`count, table`nextIp, table.clients
      modifies enclave`running, enclave.km`count, enclave.km.keys
      ensures Valid() && View() == Run(c, priv, start, EventsOf(inputs, nonceAt)).s
      ensures |outs| == |inputs|
      ensures Logged(c, priv, start, EventsOf(inputs, nonceAt), old(sequence), timestampAt, outs, wires)
    {
      outs, wires := [], [];
      ghost var events := EventsOf(inputs, nonceAt);
      for i := 0 to |inputs|
        invariant Valid() && View() == Run(c, priv, start, events[..i]).s
        invariant |outs| == i && sequence == SequenceAt(old(sequence), outs)
        invariant Logged(c, priv, start, events, old(sequence), timestampAt, outs, wires)
      {
        RunNext(c, priv, start, events, i);
        assert !OutputAt(c, priv, start, events, i).Overrun?;
        var out, wire := Turn(c, inputs[i], nonceAt(i), timestampAt(i));
        LogExtends(c, priv, start, events, old(sequence), timestampAt, outs, wires, out, wire, sequence);
        outs, wires := outs + [out], wires + [wire];
      }
      assert events[..|inputs|] == events;
    }
  }
}
