/** The tunnel end to end: what goes in at one TUN device comes out at the other. */
module Tunnel {
  import opened Bytes
  import opened Crypto
  import K = KeyTable
  import T = ClientTable
  import opened Session
  import opened Wire
  import L = Ledger
  import A = Allocation
  import G = Agreement
  import O = Outcomes

  const LARGEST: nat := 2004

  /** 2004 bytes is exactly what the client's buffers take. */
  lemma UploadFitsIff(c: Suite, key: seq<byte>, nonce: seq<byte>, p: seq<byte>, sequence: nat, timestamp: nat)
    requires Lawful(c) && |nonce| == NONCE_SIZE
    ensures Upload(c, key, nonce, p, sequence, timestamp).Sent? <==> |p| <= 2004
  {
  }

  /** And exactly what the server's take, for a routed packet whose key is on file, up to
      the 2048 bytes a read can return. */
  lemma ForwardFitsIff(c: Suite, s: State, p: seq<byte>, nonce: seq<byte>, sent: bool, now: int)
    requires Lawful(c) && |nonce| == NONCE_SIZE && |p| <= UDP_BUFFER
    requires Route(s.clients, p) < |s.clients.slots|
    requires K.GetKey(s.keys, s.clients.slots[Route(s.clients, p)].vpnIp).Some?
    ensures Forward(c, s, p, nonce, sent, now).1.UdpData? <==> |p| <= 2004
    ensures Forward(c, s, p, nonce, sent, now).1.Overrun? <==> |p| > 2004
  {
  }

  /** Where header, nonce and sealed packet lie in a receive buffer. */
  lemma Parts(head: seq<byte>, nonce: seq<byte>, sealed: seq<byte>, rest: seq<byte>)
    ensures var buf := head + nonce + sealed + rest;
            var h, n := |head|, |nonce|;
            && buf[h..h + n] == nonce
            && buf[h + n..h + n + |sealed|] == sealed
            && buf[h..h + n + |sealed|] == nonce + sealed
  {
  }

  /** Client to server: the packet the client read is the packet the server writes. */
  lemma UpRoundTrip(c: Suite, s: State, i: nat, key: seq<byte>, p: seq<byte>, nonce: seq<byte>,
      sequence: nat, timestamp: nat, stale: seq<byte>, now: int, id: nat)
    requires Lawful(c) && |nonce| == NONCE_SIZE && |p| <= LARGEST && |stale| == UDP_BUFFER
    requires T.Valid(s.clients) && i < |s.clients.slots| && s.clients.slots[i].active
    requires K.GetKey(s.keys, s.clients.slots[i].vpnIp) == Some(key)
    ensures var d := Upload(c, key, nonce, p, sequence, timestamp);
            && d.Sent?
            && var packet := Classify(Received(d.datagram, stale), ReceivedLength(d.datagram));
               Step(c, s, Udp(s.clients.slots[i].addr, packet, now, id)).1 == TunWrite(p)
  {
    var sealed := c.seal(key, nonce, p);
    var d := Upload(c, key, nonce, p, sequence, timestamp).datagram;
    var head := Header(DATA, |nonce + sealed|, sequence, timestamp);
    assert Received(d, stale) == head + nonce + sealed + stale[|d|..];
    Parts(head, nonce, sealed, stale[|d|..]);
    assert (nonce + sealed)[..NONCE_SIZE] == nonce && (nonce + sealed)[NONCE_SIZE..] == sealed;
    T.KnownSlot(s.clients, i);
  }

  /** Server to client: an IPv4 packet whose destination field (section 3.1 of RFC 791) holds
      a client's VPN address goes to that client, which writes it unchanged. */
  lemma DownRoundTrip(c: Suite, s: State, i: nat, key: seq<byte>, p: seq<byte>, nonce: seq<byte>,
      sent: bool, now: int, sequence: nat, timestamp: nat, stale: seq<byte>)
    requires Lawful(c) && |nonce| == NONCE_SIZE && |stale| == UDP_BUFFER
    requires 20 <= |p| <= LARGEST && p[0] / 16 != 6
    requires i < |s.clients.slots| && T.SlotOfIp(s.clients.slots, s.clients.slots[i].vpnIp) == i
    requires s.clients.slots[i].vpnIp < 0x1_0000_0000 && p[16..20] == ToBe(s.clients.slots[i].vpnIp, 4)
    requires K.GetKey(s.keys, s.clients.slots[i].vpnIp) == Some(key)
    ensures var out := Step(c, s, TunRead(p, nonce, sent, now)).1;
            && out.UdpData? && out.to == s.clients.slots[i].addr
            && var d := Download(out, sequence, timestamp);
               ClientReceive(c, key, Received(d, stale), ReceivedLength(d)) == ToTun(p)
  {
    Be32(s.clients.slots[i].vpnIp);
    var sealed := c.seal(key, nonce, p);
    var d := Download(UdpData(s.clients.slots[i].addr, nonce + sealed), sequence, timestamp);
    var head := Header(DATA, |nonce + sealed|, sequence, timestamp);
    assert Received(d, stale) == head + nonce + sealed + stale[|d|..];
    Parts(head, nonce, sealed, stale[|d|..]);
  }

  /** A packet crosses the tunnel unchanged both ways: sealed by client i under the key, it is
      written by the server; routed to the address of client i, it goes to that client, which
      writes it. */
  ghost predicate Crosses(c: Suite, s: State, i: nat, key: seq<byte>, p: seq<byte>, nonce: seq<byte>, sent: bool,
      sequence: nat, timestamp: nat, stale: seq<byte>, now: int, id: nat)
    requires i < |s.clients.slots| && |stale| == UDP_BUFFER
  {
    var peer := s.clients.slots[i];
    && (var d := Upload(c, key, nonce, p, sequence, timestamp);
        && d.Sent?
        && var packet := Classify(Received(d.datagram, stale), ReceivedLength(d.datagram));
           Step(c, s, Udp(peer.addr, packet, now, id)).1 == TunWrite(p))
    && (20 <= |p| && p[0] / 16 != 6 && p[16..20] == ToBe(peer.vpnIp, 4) ==>
          var out := Step(c, s, TunRead(p, nonce, sent, now)).1;
          && out.UdpData? && out.to == peer.addr
          && var d := Download(out, sequence, timestamp);
             ClientReceive(c, key, Received(d, stale), ReceivedLength(d)) == ToTun(p))
  }

  /** Without a key nothing is written. */
  lemma KeylessStops(c: Suite, s: State, i: nat, key: seq<byte>, p: seq<byte>, nonce: seq<byte>, sent: bool,
      sequence: nat, timestamp: nat, stale: seq<byte>, now: int, id: nat)
    requires T.Valid(s.clients) && i < |s.clients.slots| && s.clients.slots[i].active && |stale| == UDP_BUFFER
    requires K.GetKey(s.keys, s.clients.slots[i].vpnIp).None?
    ensures !Crosses(c, s, i, key, p, nonce, sent, sequence, timestamp, stale, now, id)
  {
    T.KnownSlot(s.clients, i);
  }

  /** After any run in which the peers keep their key pairs and at most 254 addresses were
      handed out, every packet of up to 2004 bytes crosses the tunnel unchanged, in both
      directions, under the key the client derived, if and only if no more keys of the
      client's address were dropped than the surplus makes up for. */
  lemma TunnelRoundTrip(c: Suite, priv: seq<byte>, start: int, events: seq<Event>, privOf: T.Addr -> seq<byte>,
      i: nat, p: seq<byte>, nonce: seq<byte>, sent: bool, sequence: nat, timestamp: nat, stale: seq<byte>,
      now: int, id: nat)
    requires Lawful(c) && G.Faithful(events, G.Published(c, privOf))
    requires |nonce| == NONCE_SIZE && |stale| == UDP_BUFFER && |p| <= LARGEST
    requires var w := Run(c, priv, start, events);
             && w.h.issued <= A.RANGE
             && i < |w.s.clients.slots| && w.s.clients.slots[i].active
    ensures var w := Run(c, priv, start, events);
            var peer := w.s.clients.slots[i];
            var key := SessionKey(c, privOf(peer.addr), c.publicOf(priv));
            key.Some? && Crosses(c, w.s, i, key.value, p, nonce, sent, sequence, timestamp, stale, now, id)
            <==> w.h.dropped[peer.vpnIp] <= L.Surplus(w.h)[peer.vpnIp]
  {
    var s := Run(c, priv, start, events).s;
    var peer := s.clients.slots[i];
    G.KeyAgreement(c, priv, start, events, privOf, i);
    G.RunKeyPair(c, priv, start, events);
    L.RunBalances(c, priv, start, events);
    var key := SessionKey(c, privOf(peer.addr), c.publicOf(priv));
    if G.Agrees(c, s, privOf, i) {
      A.OneToOne(c, priv, start, events, i, T.SlotOfIp(s.clients.slots, peer.vpnIp));
      AgreedCrosses(c, s, i, key.value, p, nonce, sent, sequence, timestamp, stale, now, id);
    } else if key.Some? {
      G.KeyAgreementFound(c, priv, start, events, privOf, i);
      KeylessStops(c, s, i, key.value, p, nonce, sent, sequence, timestamp, stale, now, id);
    }
  }

  /** With the key of client i on file, and i the only client under its address, it crosses. */
  lemma AgreedCrosses(c: Suite, s: State, i: nat, key: seq<byte>, p: seq<byte>, nonce: seq<byte>, sent: bool,
      sequence: nat, timestamp: nat, stale: seq<byte>, now: int, id: nat)
    requires Lawful(c) && T.Valid(s.clients) && i < |s.clients.slots| && s.clients.slots[i].active
    requires |nonce| == NONCE_SIZE && |stale| == UDP_BUFFER && |p| <= LARGEST
    requires T.SlotOfIp(s.clients.slots, s.clients.slots[i].vpnIp) == i
    requires K.GetKey(s.keys, s.clients.slots[i].vpnIp) == Some(key)
    ensures Crosses(c, s, i, key, p, nonce, sent, sequence, timestamp, stale, now, id)
  {
    UpRoundTrip(c, s, i, key, p, nonce, sequence, timestamp, stale, now, id);
    if 20 <= |p| && p[0] / 16 != 6 && p[16..20] == ToBe(s.clients.slots[i].vpnIp, 4) {
      DownRoundTrip(c, s, i, key, p, nonce, sent, now, sequence, timestamp, stale);
    }
  }

  /** Connecting, through the bytes both ways: after any run that leaves room, every
      CONNECT_REQ whose key Diffie-Hellman accepts, a peer's first or a repeated one, is
      answered and leaves the client with the address and session id it is now entered under
      and the key the enclave derived for it. Each side has its own header fields and its own
      stale buffer. */
  lemma ConnectCompletes(c: Suite, priv: seq<byte>, start: int, events: seq<Event>, a: T.Addr, clientPriv: seq<byte>,
      name: seq<byte>, sequence: nat, timestamp: nat, stale: seq<byte>,
      sequence': nat, timestamp': nat, stale': seq<byte>, now: int, id: nat)
    requires Lawful(c) && |name| == 32 && |stale| == |stale'| == UDP_BUFFER
    requires Run(c, priv, start, events).s.clients.count < 254 && c.ecdh(priv, c.publicOf(clientPriv)).Some?
    ensures var s := Run(c, priv, start, events).s;
            var d := ConnectRequest(name, c.publicOf(clientPriv), sequence, timestamp);
            var (s', out) := Step(c, s, Udp(a, Classify(Received(d, stale), ReceivedLength(d)), now, id));
            && out.ConnectResp?
            && JoinedAs(s', a, Join(c, clientPriv, Received(ConnectResponse(out, sequence', timestamp'), stale')),
                        Some(c.kdf(c.ecdh(priv, c.publicOf(clientPriv)).value)))
  {
    O.ConnectAnsweredIff(c, priv, start, events, a, c.publicOf(clientPriv), now, id);
    ConnectRequestArrives(name, c.publicOf(clientPriv), sequence, timestamp, stale);
    G.RunKeyPair(c, priv, start, events);
    L.RunBalances(c, priv, start, events);
    AnswerCompletes(c, Run(c, priv, start, events).s, a, clientPriv, sequence', timestamp', stale', now, id);
  }

  /** The client has joined under the address and session id of its entry, with this key. */
  ghost predicate JoinedAs(s: State, a: T.Addr, joined: Option<Joined>, key: Option<seq<byte>>) {
    && joined.Some? && T.Knows(s.clients, a)
    && var entry := s.clients.slots[T.SlotOfAddr(s.clients.slots, a)];
       && joined.value.vpnIp == entry.vpnIp
       && joined.value.sessionId == entry.sessionId % U32
       && Some(joined.value.sessionKey) == key
  }

  lemma AnswerCompletes(c: Suite, s: State, a: T.Addr, clientPriv: seq<byte>,
      sequence: nat, timestamp: nat, stale: seq<byte>, now: int, id: nat)
    requires Lawful(c) && T.Valid(s.clients) && s.keys.pub == c.publicOf(s.keys.priv) && |stale| == UDP_BUFFER
    requires Connect(c, s, a, c.publicOf(clientPriv), now, id).1.ConnectResp?
    ensures var (s', out) := Connect(c, s, a, c.publicOf(clientPriv), now, id);
            JoinedAs(s', a, Join(c, clientPriv, Received(ConnectResponse(out, sequence, timestamp), stale)),
                     SessionKey(c, s.keys.priv, c.publicOf(clientPriv)))
  {
    var pub := c.publicOf(clientPriv);
    var (s', out) := Connect(c, s, a, pub, now, id);
    L.ConnectNames(c, s, a, pub, now, id);
    AnswerFits(c, s, a, pub, now, id);
    AnswerJoins(c, s', out, a, s.keys.priv, clientPriv, sequence, timestamp, stale);
  }

  /** An answer that names the peer's entry, read by a client the handshake accepted. */
  lemma AnswerJoins(c: Suite, s: State, out: Output, a: T.Addr, priv: seq<byte>, clientPriv: seq<byte>,
      sequence: nat, timestamp: nat, stale: seq<byte>)
    requires Lawful(c) && out.ConnectResp? && |stale| == UDP_BUFFER
    requires L.Names(s, out, a) && out.vpnIp < U32 && s.keys.pub == c.publicOf(priv)
    requires SessionKey(c, priv, c.publicOf(clientPriv)).Some?
    ensures JoinedAs(s, a, Join(c, clientPriv, Received(ConnectResponse(out, sequence, timestamp), stale)),
                     SessionKey(c, priv, c.publicOf(clientPriv)))
  {
    var joined := Join(c, clientPriv, Received(ConnectResponse(out, sequence, timestamp), stale));
    var key := SessionKey(c, priv, c.publicOf(clientPriv));
    assert joined == Some(Joined(out.vpnIp, out.sessionId % U32, out.serverPub, key.value)) by {
      KeysAgree(c, priv, clientPriv);
      ResponseJoins(c, clientPriv, out, sequence, timestamp, stale);
    }
    EntryJoined(s, out, a, joined, key);
  }

  lemma EntryJoined(s: State, out: Output, a: T.Addr, joined: Option<Joined>, key: Option<seq<byte>>)
    requires out.ConnectResp? && L.Names(s, out, a) && key.Some?
    requires joined == Some(Joined(out.vpnIp, out.sessionId % U32, out.serverPub, key.value))
    ensures JoinedAs(s, a, joined, key)
  {
  }

  lemma AnswerFits(c: Suite, s: State, a: T.Addr, pub: seq<byte>, now: int, id: nat)
    requires T.Valid(s.clients) && Connect(c, s, a, pub, now, id).1.ConnectResp?
    ensures Connect(c, s, a, pub, now, id).1.vpnIp < U32
    ensures Connect(c, s, a, pub, now, id).0.keys.pub == s.keys.pub && SessionKey(c, s.keys.priv, pub).Some?
  {
    T.AddClientKeeps(s.clients, a, now, id);
  }
}
