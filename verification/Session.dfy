/** One step of the server's event loop over both tables, and whole runs of it
    (VPN/src/server/vpn_server.c with the enclave behind reliable, whole-message IPC). */
module Session {
  import opened Bytes
  import opened Crypto
  import K = KeyTable
  import T = ClientTable

  const UDP_BUFFER: nat := 2048
  const HEADER_SIZE: nat := 16
  const IPC_MAX_DATA_SIZE: nat := 4096
  const SWEEP_PERIOD: int := 30

  /** A datagram as the server's dispatch sees it. */
  datatype Packet =
    | ConnectReq(pub: seq<byte>)
    | Data(body: seq<byte>)
    | Ping
    | Disconnect
    | Other

  /** What can happen next. Clock readings, nonces, session ids and the result of a send
      are inputs. */
  datatype Event =
    | Udp(from: T.Addr, packet: Packet, now: int, sessionId: nat)
    | TunRead(ipPacket: seq<byte>, nonce: seq<byte>, sent: bool, now: int)
    | Idle(now: int)

  /** What the step does to the outside. NullClient and Overrun stand for the points where
      the C program would dereference NULL or write past a 2048-byte buffer. */
  datatype Output =
    | Silent
    | ConnectResp(to: T.Addr, vpnIp: nat, sessionId: nat, serverPub: seq<byte>)
    | Pong(to: T.Addr)
    | TunWrite(ipPacket: seq<byte>)
    | UdpData(to: T.Addr, body: seq<byte>)
    | KeyNotFound(vpnIp: nat)
    | NullClient
    | Overrun

  datatype State = State(clients: T.Table, keys: K.Keys, lastSweep: int)

  datatype Sealed = NoKey | Refused | Done(bytes: seq<byte>)

  /** enclave_encrypt as the server sees it: nonce, ciphertext and tag in a row. */
  function Encrypt(c: Suite, k: K.Keys, ip: nat, plain: seq<byte>, nonce: seq<byte>): Sealed {
    if |plain| > IPC_MAX_DATA_SIZE then Refused
    else match K.GetKey(k, ip)
      case None => NoKey
      case Some(key) => Done(nonce + c.seal(key, nonce, plain))
  }

  /** enclave_decrypt as the server sees it. */
  function Decrypt(c: Suite, k: K.Keys, ip: nat, body: seq<byte>): Sealed {
    if |body| > IPC_MAX_DATA_SIZE then Refused
    else match K.GetKey(k, ip)
      case None => NoKey
      case Some(key) =>
        if |body| < NONCE_SIZE + MAC_SIZE then Refused
        else match c.open(key, body[..NONCE_SIZE], body[NONCE_SIZE..])
          case None => Refused
          case Some(plain) => Done(plain)
  }

  function Connect(c: Suite, s: State, a: T.Addr, pub: seq<byte>, now: int, sessionId: nat): (State, Output) {
    var (t, ip) := T.AddClient(s.clients, a, now, sessionId);
    if ip == 0 then (s.(clients := t), Silent)
    else
      var (k, key) := K.Handshake(c, s.keys, ip, pub);
      match key
      case None => (s.(clients := T.RemoveClient(t, ip), keys := k), Silent)
      case Some(_) =>
        var i := T.SlotOfAddr(t.slots, a);
        (s.(clients := t, keys := k),
         if i < |t.slots| then ConnectResp(a, ip, t.slots[i].sessionId, k.pub) else NullClient)
  }

  function Receive(c: Suite, s: State, a: T.Addr, body: seq<byte>, now: int): (State, Output) {
    var i := T.SlotOfAddr(s.clients.slots, a);
    if i == |s.clients.slots| then (s, Silent)
    else
      var ip := s.clients.slots[i].vpnIp;
      (s.(clients := T.Touch(s.clients, i, now)),
       match Decrypt(c, s.keys, ip, body)
       case NoKey => KeyNotFound(ip)
       case Refused => Silent
       case Done(plain) => TunWrite(plain))
  }

  function Answer(s: State, a: T.Addr, now: int): (State, Output) {
    var i := T.SlotOfAddr(s.clients.slots, a);
    (if i == |s.clients.slots| then s else s.(clients := T.Touch(s.clients, i, now)), Pong(a))
  }

  function Leave(s: State, a: T.Addr): (State, Output) {
    var i := T.SlotOfAddr(s.clients.slots, a);
    if i == |s.clients.slots| then (s, Silent)
    else
      var ip := s.clients.slots[i].vpnIp;
      (s.(clients := T.RemoveClient(s.clients, ip), keys := K.RemoveKey(s.keys, ip)), Silent)
  }

  function IsIpv6(p: seq<byte>): bool
    requires |p| >= 20
  {
    p[0] / 16 == 6
  }

  function Destination(p: seq<byte>): nat
    requires |p| >= 20
  {
    FromBe(p[16..20])
  }

  /** The client slot a packet read from the TUN device is routed to. */
  function Route(t: T.Table, p: seq<byte>): (i: nat)
    ensures i <= |t.slots|
  {
    if |p| < 20 || IsIpv6(p) then |t.slots| else T.SlotOfIp(t.slots, Destination(p))
  }

  function Forward(c: Suite, s: State, p: seq<byte>, nonce: seq<byte>, sent: bool, now: int): (State, Output) {
    var i := Route(s.clients, p);
    if i == |s.clients.slots| then (s, Silent)
    else
      var e := s.clients.slots[i];
      match Encrypt(c, s.keys, e.vpnIp, p, nonce)
      case NoKey => (s, KeyNotFound(e.vpnIp))
      case Refused => (s, Silent)
      case Done(body) =>
        if HEADER_SIZE + |body| > UDP_BUFFER then (s, Overrun)
        else (if sent then s.(clients := T.Touch(s.clients, i, now)) else s, UdpData(e.addr, body))
  }

  function Rest(s: State, now: int): (State, Output) {
    (if now - s.lastSweep >= SWEEP_PERIOD
     then s.(clients := T.Sweep(s.clients, now), lastSweep := now) else s, Silent)
  }

  function Step(c: Suite, s: State, e: Event): (State, Output) {
    match e
    case Udp(a, ConnectReq(pub), now, id) => Connect(c, s, a, pub, now, id)
    case Udp(a, Data(body), now, _) => Receive(c, s, a, body, now)
    case Udp(a, Ping, now, _) => Answer(s, a, now)
    case Udp(a, Disconnect, _, _) => Leave(s, a)
    case Udp(_, Other, _, _) => (s, Silent)
    case TunRead(p, nonce, sent, now) => Forward(c, s, p, nonce, sent, now)
    case Idle(now) => Rest(s, now)
  }

  /** What can be seen from outside: a refusal by the enclave is only logged. */
  function Observed(out: Output): Output {
    if out.KeyNotFound? then Silent else out
  }

  // ---- Runs, with a history kept beside the state ----

  /** What has happened so far, recorded from each event and the state it met.
      Multisets hold VPN addresses: reconnects, of known clients whose CONNECT stored
      another key; rollbacks, of known clients removed by a failed handshake; timeouts, of
      swept clients; dropped, of clients entered while the key table was full and not
      disconnected since. issued numbers the allocations, serial maps a slot to the
      number of its latest one, owner an address to its latest holder, and activity lists
      who was heard from or sent to, and when. */
  datatype History = History(
    reconnects: multiset<nat>,
    rollbacks: multiset<nat>,
    timeouts: multiset<nat>,
    dropped: multiset<nat>,
    issued: nat,
    serial: seq<nat>,
    owner: map<nat, T.Addr>,
    activity: seq<(T.Addr, int)>)

  ghost function Single(ip: nat, when: bool): multiset<nat> {
    if when then multiset{ip} else multiset{}
  }

  ghost function NoteConnect(c: Suite, h: History, s: State, a: T.Addr, pub: seq<byte>, now: int, id: nat): History {
    var ip := T.AddClient(s.clients, a, now, id).1;
    if ip == 0 then h
    else
      var known, ok, full := T.Knows(s.clients, a), SessionKey(c, s.keys.priv, pub).Some?, K.Full(s.keys);
      var free := T.FreeSlot(s.clients.slots);
      h.(reconnects := h.reconnects + Single(ip, known && ok && !full),
         rollbacks := h.rollbacks + Single(ip, known && !ok),
         dropped := h.dropped + Single(ip, !known && ok && full),
         issued := if known then h.issued else h.issued + 1,
         serial := if known || free >= |h.serial| then h.serial else h.serial[free := h.issued],
         owner := if known then h.owner else h.owner[ip := a],
         activity := h.activity + [(a, now)])
  }

  ghost function NoteActivity(h: History, s: State, a: T.Addr, now: int): History {
    if T.Knows(s.clients, a) then h.(activity := h.activity + [(a, now)]) else h
  }

  ghost function NoteLeave(h: History, s: State, a: T.Addr): History {
    if !T.Knows(s.clients, a) then h
    else
      var ip := s.clients.slots[T.SlotOfAddr(s.clients.slots, a)].vpnIp;
      h.(dropped := if ip in K.Ips(s.keys) then h.dropped else h.dropped - multiset{ip})
  }

  ghost function NoteForward(c: Suite, h: History, s: State, e: Event): History
    requires e.TunRead?
  {
    match Step(c, s, e).1
    case UdpData(to, _) => if e.sent then h.(activity := h.activity + [(to, e.now)]) else h
    case _ => h
  }

  ghost function NoteRest(h: History, s: State, now: int): History {
    if now - s.lastSweep >= SWEEP_PERIOD
    then h.(timeouts := h.timeouts + T.EvictedIps(s.clients, now)) else h
  }

  ghost function Note(c: Suite, h: History, s: State, e: Event): History {
    match e
    case Udp(a, ConnectReq(pub), now, id) => NoteConnect(c, h, s, a, pub, now, id)
    case Udp(a, Data(_), now, _) => NoteActivity(h, s, a, now)
    case Udp(a, Ping, now, _) => NoteActivity(h, s, a, now)
    case Udp(a, Disconnect, _, _) => NoteLeave(h, s, a)
    case Udp(_, Other, _, _) => h
    case TunRead(_, _, _, _) => NoteForward(c, h, s, e)
    case Idle(now) => NoteRest(h, s, now)
  }

  datatype World = World(s: State, h: History)

  /** Start-up: empty tables, a fresh server key pair. */
  function Boot(c: Suite, priv: seq<byte>, now: int): State {
    State(T.Init(), K.Init(priv, c.publicOf(priv)), now)
  }

  ghost function Begin(c: Suite, priv: seq<byte>, now: int): World {
    World(Boot(c, priv, now),
          History(multiset{}, multiset{}, multiset{}, multiset{}, 0, seq(T.MAX_CLIENTS, _ => 0), map[], []))
  }

  ghost function Next(c: Suite, w: World, e: Event): World {
    World(Step(c, w.s, e).0, Note(c, w.h, w.s, e))
  }

  ghost function Run(c: Suite, priv: seq<byte>, start: int, events: seq<Event>): World {
    if events == [] then Begin(c, priv, start)
    else Next(c, Run(c, priv, start, events[..|events| - 1]), events[|events| - 1])
  }

  /** The output of the last step of a run. */
  ghost function LastOutput(c: Suite, priv: seq<byte>, start: int, events: seq<Event>): Output
    requires events != []
  {
    Step(c, Run(c, priv, start, events[..|events| - 1]).s, events[|events| - 1]).1
  }
}
