/** What every step of the server does, said of the tables, the bytes and the primitives
    alone: when it answers, what it writes, whom it sends to, and what it leaves alone. */
module Outcomes {
  import opened Bytes
  import opened Crypto
  import K = KeyTable
  import T = ClientTable
  import opened Session
  import opened Wire
  import L = Ledger
  import G = Agreement

  // ---- The tables before and after ----

  /** The entry of a peer, refreshed; every other entry as before. */
  ghost predicate Refreshes(t: T.Table, t': T.Table, a: T.Addr, now: int) {
    && t'.count == t.count && t'.nextIp == t.nextIp && |t'.slots| == |t.slots|
    && forall i :: 0 <= i < |t.slots| ==>
         t'.slots[i] == if t.slots[i].active && t.slots[i].addr == a then t.slots[i].(lastSeen := now) else t.slots[i]
  }

  // ---- DATA ----

  /** A body opens to p under the key on file for a peer. */
  ghost predicate Opens(c: Suite, s: State, a: T.Addr, body: seq<byte>, p: seq<byte>) {
    && T.Knows(s.clients, a)
    && 28 <= |body| <= 4096
    && var key := K.GetKey(s.keys, s.clients.slots[T.SlotOfAddr(s.clients.slots, a)].vpnIp);
       key.Some? && c.open(key.value, body[..12], body[12..]) == Some(p)
  }

  /** A DATA packet is written to the TUN device if and only if its sender is entered, has a
      key on file, and the packet opens under it; what is written is what opened. */
  lemma DataWritesIff(c: Suite, s: State, a: T.Addr, body: seq<byte>, now: int, id: nat, p: seq<byte>)
    ensures Step(c, s, Udp(a, Data(body), now, id)).1 == TunWrite(p) <==> Opens(c, s, a, body, p)
  {
  }

  /** Whatever else it holds, it only refreshes its sender, and nothing else goes out. */
  lemma DataRefreshes(c: Suite, s: State, a: T.Addr, body: seq<byte>, now: int, id: nat)
    requires T.Valid(s.clients)
    ensures var (s', out) := Step(c, s, Udp(a, Data(body), now, id));
            && Refreshes(s.clients, s'.clients, a, now) && s'.keys == s.keys && s'.lastSweep == s.lastSweep
            && (out.TunWrite? || Observed(out) == Silent)
  {
  }

  // ---- PING and DISCONNECT ----

  lemma PingRefreshes(c: Suite, s: State, a: T.Addr, now: int, id: nat)
    requires T.Valid(s.clients)
    ensures var (s', out) := Step(c, s, Udp(a, Ping, now, id));
            && Refreshes(s.clients, s'.clients, a, now) && s'.keys == s.keys && s'.lastSweep == s.lastSweep
            && out == Pong(a)
  {
  }

  /** Entry i is the lowest active one of the VPN address. */
  ghost predicate LowestClient(t: T.Table, ip: nat, i: nat)
    requires i < |t.slots|
  {
    && t.slots[i].active && t.slots[i].vpnIp == ip
    && forall j :: 0 <= j < i ==> !(t.slots[j].active && t.slots[j].vpnIp == ip)
  }

  ghost predicate LowestKey(k: K.Keys, ip: nat, i: nat)
    requires i < |k.slots|
  {
    && k.slots[i].active && k.slots[i].vpnIp == ip
    && forall j :: 0 <= j < i ==> !(k.slots[j].active && k.slots[j].vpnIp == ip)
  }

  /** Exactly the lowest entry and the lowest key of the address are gone, the key wiped. */
  ghost predicate Forgets(s: State, s': State, ip: nat) {
    && |s'.clients.slots| == |s.clients.slots| && |s'.keys.slots| == |s.keys.slots|
    && (forall i :: 0 <= i < |s.clients.slots| ==>
          s'.clients.slots[i] == if LowestClient(s.clients, ip, i) then s.clients.slots[i].(active := false)
                                 else s.clients.slots[i])
    && (forall i :: 0 <= i < |s.keys.slots| ==>
          s'.keys.slots[i] == if LowestKey(s.keys, ip, i) then K.Entry(ip, Zeros(32), false) else s.keys.slots[i])
  }

  /** A DISCONNECT is never answered. Of an entered peer it takes the lowest entry and the
      lowest key of its address; of anyone else it changes nothing. */
  lemma LeaveOutcome(c: Suite, s: State, a: T.Addr, now: int, id: nat)
    ensures var (s', out) := Step(c, s, Udp(a, Disconnect, now, id));
            && out == Silent && s'.lastSweep == s.lastSweep
            && (T.Knows(s.clients, a) ==>
                  Forgets(s, s', s.clients.slots[T.SlotOfAddr(s.clients.slots, a)].vpnIp))
            && (!T.Knows(s.clients, a) ==> s' == s)
  {
    if T.Knows(s.clients, a) {
      var ip := s.clients.slots[T.SlotOfAddr(s.clients.slots, a)].vpnIp;
      var x, y := T.SlotOfIp(s.clients.slots, ip), K.SlotOf(s.keys.slots, ip);
      forall i | 0 <= i < |s.clients.slots| ensures LowestClient(s.clients, ip, i) <==> i == x {
      }
      forall i | 0 <= i < |s.keys.slots| ensures LowestKey(s.keys, ip, i) <==> i == y {
      }
    }
  }

  // ---- CONNECT ----

  /** What an accepted CONNECT with a good handshake leaves behind: the peer is entered under
      the address it had, or else the next one with the new session id; the key derived from
      its public key is stored if there is room; the answer goes to it and names its entry. */
  ghost predicate Welcomes(c: Suite, s: State, a: T.Addr, pub: seq<byte>, now: int, id: nat, s': State, out: Output) {
    var i, j := T.SlotOfAddr(s.clients.slots, a), T.SlotOfAddr(s'.clients.slots, a);
    && c.ecdh(s.keys.priv, pub).Some? && j < |s'.clients.slots|
    && var e := s'.clients.slots[j];
       && e == (if i < |s.clients.slots| then s.clients.slots[i].(lastSeen := now)
                else T.Entry(T.NextIp(s.clients), a, now, id, true))
       && out == ConnectResp(a, e.vpnIp, e.sessionId, s.keys.pub)
       && s'.keys == K.AddKey(s.keys, e.vpnIp, c.kdf(c.ecdh(s.keys.priv, pub).value))
  }

  /** A CONNECT is answered if and only if fewer than 254 clients are entered and Diffie-Hellman
      accepts the public key. When the table is full nothing changes at all; when the key is
      refused no key is stored and the lowest entry of the address goes again. */
  lemma ConnectOutcome(c: Suite, s: State, a: T.Addr, pub: seq<byte>, now: int, id: nat)
    requires T.Valid(s.clients)
    ensures var (s', out) := Step(c, s, Udp(a, ConnectReq(pub), now, id));
            var (t, ip) := T.AddClient(s.clients, a, now, id);
            && (out.ConnectResp? <==> s.clients.count < 254 && c.ecdh(s.keys.priv, pub).Some?)
            && (out.ConnectResp? ==> Welcomes(c, s, a, pub, now, id, s', out))
            && (!out.ConnectResp? ==> out == Silent && s'.keys == s.keys)
            && (s.clients.count == 254 ==> s' == s)
            && (s.clients.count < 254 && c.ecdh(s.keys.priv, pub).None? ==> s'.clients == T.RemoveClient(t, ip))
            && s'.lastSweep == s.lastSweep
  {
    T.RoomIff(s.clients);
    T.AddClientKeeps(s.clients, a, now, id);
    if s.clients.count < 254 {
      T.AddClientExact(s.clients, a, now, id, T.SlotOfAddr(T.AddClient(s.clients, a, now, id).0.slots, a));
    }
  }

  /** So after any run. */
  lemma ConnectAnsweredIff(c: Suite, priv: seq<byte>, start: int, events: seq<Event>, a: T.Addr, pub: seq<byte>,
      now: int, id: nat)
    requires Lawful(c)
    ensures var s := Run(c, priv, start, events).s;
            var (s', out) := Step(c, s, Udp(a, ConnectReq(pub), now, id));
            && (out.ConnectResp? <==> s.clients.count < 254 && c.ecdh(priv, pub).Some?)
            && (out.ConnectResp? ==> out.to == a && out.serverPub == c.publicOf(priv) && T.Knows(s'.clients, a))
            && (!out.ConnectResp? ==> out == Silent)
  {
    L.RunBalances(c, priv, start, events);
    G.RunKeyPair(c, priv, start, events);
    ConnectOutcome(c, Run(c, priv, start, events).s, a, pub, now, id);
  }

  // ---- Packets from the TUN device ----

  /** The packet is IPv4 and its destination field (section 3.1 of RFC 791) holds the VPN
      address of entry i, the lowest active one that it does hold. */
  ghost predicate Addressed(t: T.Table, p: seq<byte>, i: nat) {
    && i < |t.slots| && |p| >= 20 && p[0] / 16 != 6
    && t.slots[i].active && p[16..20] == ToBe(t.slots[i].vpnIp, 4)
    && forall j :: 0 <= j < i ==> !(t.slots[j].active && p[16..20] == ToBe(t.slots[j].vpnIp, 4))
  }

  lemma HoldsAddress(ip: nat, b: seq<byte>)
    requires |b| == 4 && ip < U32
    ensures b == ToBe(ip, 4) <==> FromBe(b) == ip
  {
    Be32(ip);
    ToFromBe(b);
  }

  /** Where the code routes is where the packet is addressed. */
  lemma RouteIff(t: T.Table, p: seq<byte>, i: nat)
    requires T.Valid(t)
    ensures Addressed(t, p, i) <==> i < |t.slots| && Route(t, p) == i
  {
    if |p| >= 20 {
      forall j | 0 <= j < |t.slots| && t.slots[j].active
        ensures p[16..20] == ToBe(t.slots[j].vpnIp, 4) <==> Destination(p) == t.slots[j].vpnIp
      {
        HoldsAddress(t.slots[j].vpnIp, p[16..20]);
      }
      if Route(t, p) < |t.slots| {
        var k := Route(t, p);
        assert t.slots[k].active && t.slots[k].vpnIp == Destination(p);
        assert Addressed(t, p, i) ==> !(k < i) && !(i < k);
      }
    }
  }

  /** The packet leaves, sealed with the nonce under the key on file, for the peer it is
      addressed to. */
  ghost predicate Leaves(c: Suite, s: State, p: seq<byte>, nonce: seq<byte>, i: nat, to: T.Addr, body: seq<byte>) {
    && Addressed(s.clients, p, i) && s.clients.slots[i].addr == to && |p| <= 2004
    && var key := K.GetKey(s.keys, s.clients.slots[i].vpnIp);
       key.Some? && body == nonce + c.seal(key.value, nonce, p)
  }

  /** A packet is sent if and only if it is addressed to an entry with a key on file and fits;
      it is then sealed for that entry's peer, and if the send works that entry is refreshed.
      Nothing else changes. A packet addressed to nobody is dropped without a trace. */
  lemma TunOutcome(c: Suite, s: State, p: seq<byte>, nonce: seq<byte>, sent: bool, now: int, to: T.Addr,
      body: seq<byte>)
    requires Lawful(c) && T.Valid(s.clients) && |nonce| == 12
    ensures var (s', out) := Step(c, s, TunRead(p, nonce, sent, now));
            && (out == UdpData(to, body) <==> exists i: nat :: Leaves(c, s, p, nonce, i, to, body))
            && (out == UdpData(to, body) && sent ==> Refreshes(s.clients, s'.clients, to, now))
            && (!out.UdpData? || !sent ==> s'.clients == s.clients)
            && s'.keys == s.keys && s'.lastSweep == s.lastSweep
            && ((forall i: nat :: !Addressed(s.clients, p, i)) ==> s' == s && out == Silent)
  {
    var k := Route(s.clients, p);
    RouteIff(s.clients, p, k);
    forall i: nat | Addressed(s.clients, p, i) ensures i == k {
      RouteIff(s.clients, p, i);
    }
    if Step(c, s, TunRead(p, nonce, sent, now)).1 == UdpData(to, body) {
      assert Leaves(c, s, p, nonce, k, to, body);
    }
  }

  /** Only a packet of more than 2004 bytes, addressed to an entry with a key, overruns. */
  lemma OverrunIff(c: Suite, s: State, p: seq<byte>, nonce: seq<byte>, sent: bool, now: int)
    requires Lawful(c) && T.Valid(s.clients) && |nonce| == 12
    ensures Step(c, s, TunRead(p, nonce, sent, now)).1.Overrun? <==>
              && 2004 < |p| <= 4096
              && exists i: nat :: Addressed(s.clients, p, i) && K.GetKey(s.keys, s.clients.slots[i].vpnIp).Some?
  {
    var k := Route(s.clients, p);
    RouteIff(s.clients, p, k);
    forall i: nat | Addressed(s.clients, p, i) ensures i == k {
      RouteIff(s.clients, p, i);
    }
  }

  // ---- Any datagram, by its bytes ----

  /** What the server does with the first n bytes of its buffer, a datagram from a. */
  ghost function Reaction(c: Suite, s: State, buf: seq<byte>, n: nat, a: T.Addr, now: int, id: nat): (State, Output)
    requires n <= |buf| == UDP_BUFFER
  {
    Step(c, s, Udp(a, Classify(buf, n), now, id))
  }

  /** By the bytes of the datagram alone: a PONG answers exactly the PINGs; a packet is written
      exactly for DATA that opens; CONNECT_RESP answers exactly the CONNECTs that find room and
      carry an acceptable key at offset 48; and a datagram that is shorter than a header or of
      another kind changes nothing. */
  lemma DatagramOutcome(c: Suite, s: State, buf: seq<byte>, n: nat, a: T.Addr, now: int, id: nat, p: seq<byte>)
    requires T.Valid(s.clients) && n <= |buf| == 2048
    ensures var (s', out) := Reaction(c, s, buf, n, a, now, id);
            && (out.Pong? <==> n >= 16 && buf[0] == 4)
            && (out == TunWrite(p) <==> n >= 16 && buf[0] == 3 && Opens(c, s, a, buf[16..n], p))
            && (out.ConnectResp? <==> n >= 16 && buf[0] == 1 && s.clients.count < 254
                                      && c.ecdh(s.keys.priv, buf[48..80]).Some?)
            && (out.Pong? || out.TunWrite? || out.ConnectResp? || Observed(out) == Silent)
            && (n < 16 || buf[0] !in [1, 3, 4, 6] ==> s' == s && out == Silent)
            && (n >= 16 && buf[0] == 6 ==> (s', out) == Step(c, s, Udp(a, Disconnect, now, id)))
  {
    if n >= 16 && buf[0] == 1 {
      ConnectOutcome(c, s, a, buf[48..80], now, id);
    } else if n >= 16 && buf[0] == 3 {
      DataWritesIff(c, s, a, buf[16..n], now, id, p);
      DataRefreshes(c, s, a, buf[16..n], now, id);
    }
  }

  /** Byte by byte, the buffer is the datagram over what was there. */
  lemma ReceivedBytes(datagram: seq<byte>, stale: seq<byte>, i: nat)
    requires |stale| == 2048 && i < 2048
    ensures Received(datagram, stale)[i] == if i < |datagram| then datagram[i] else stale[i]
    ensures ReceivedLength(datagram) == if |datagram| < 2048 then |datagram| else 2048
  {
  }

  // ---- The client ----

  /** The client writes a packet if and only if it is DATA that opens under its key, takes a
      PONG for what it is, and does nothing else but in the one case its length underflows. */
  lemma ClientOutcome(c: Suite, key: seq<byte>, buf: seq<byte>, n: nat, p: seq<byte>)
    requires n <= |buf| == 2048
    ensures var out := ClientReceive(c, key, buf, n);
            && (out == ToTun(p) <==> n >= 28 && buf[0] == 3 && c.open(key, buf[16..28], buf[28..n]) == Some(p))
            && (out.PongSeen? <==> n >= 16 && buf[0] == 5)
            && (out.Undefined? <==> 16 <= n < 28 && buf[0] == 3)
  {
  }

  /** The client joins if and only if the buffer holds a CONNECT_RESP with status 0 and
      Diffie-Hellman accepts the server's key; then it keeps the fields at their offsets. */
  lemma JoinOutcome(c: Suite, priv: seq<byte>, buf: seq<byte>)
    requires |buf| == 2048
    ensures var joined := Join(c, priv, buf);
            && (joined.Some? <==> buf[0] == 2 && buf[16] == 0 && c.ecdh(priv, buf[25..57]).Some?)
            && (joined.Some? ==>
                  var j := joined.value;
                  && buf[17..21] == ToBe(j.vpnIp, 4) && buf[21..25] == ToBe(j.sessionId, 4)
                  && j.vpnIp < U32 && j.sessionId < U32
                  && buf[25..57] == j.serverPub && j.sessionKey == c.kdf(c.ecdh(priv, j.serverPub).value))
  {
    ToFromBe(buf[17..21]);
    ToFromBe(buf[21..25]);
    Widths();
  }

  /** The client sends its packet behind a DATA header and the nonce, sealed with that nonce. */
  lemma UploadBytes(c: Suite, key: seq<byte>, nonce: seq<byte>, p: seq<byte>, sequence: nat, timestamp: nat)
    requires Lawful(c) && |nonce| == 12 && |p| <= 2004
    ensures var d := Upload(c, key, nonce, p, sequence, timestamp);
            && d.Sent? && |d.datagram| == |p| + 44
            && d.datagram[..16] == Header(3, |p| + 28, sequence, timestamp)
            && d.datagram[16..28] == nonce && d.datagram[28..] == c.seal(key, nonce, p)
  {
  }

  // ---- Headers and requests, byte by byte ----

  lemma {:induction false} BigEndian(n: nat, k: nat, i: nat)
    requires i < k
    ensures ToBe(n, k)[i] == n / Pow256(k - 1 - i) % 256
  {
    if i < k - 1 {
      BigEndian(n / 256, k - 1, i);
      DivDiv(n, 256, Pow256(k - 2 - i));
    }
  }

  lemma DivDiv(n: nat, a: nat, b: nat)
    requires a > 0 && b > 0
    ensures n / a / b == n / (a * b)
  {
    var q, r, r' := n / a / b, n / a % b, n % a;
    assert n == a * (b * q + r) + r';
    assert n == (a * b) * q + (a * r + r') by {
      assert a * (b * q + r) == (a * b) * q + a * r;
    }
    assert a * r + r' < a * b by {
      assert a * r <= a * (b - 1);
    }
    RemainderUnique(n, a * b, q, a * r + r');
  }

  /** A header: kind, version 1, then length, sequence number and timestamp, most significant
      byte first. */
  lemma HeaderBytes(kind: byte, length: nat, sequence: nat, timestamp: nat)
    ensures var h := Header(kind, length, sequence, timestamp);
            && |h| == 16 && h[0] == kind && h[1] == 1
            && h[2] == length / 256 % 256 && h[3] == length % 256
            && h[4] == sequence / 0x100_0000 % 256 && h[5] == sequence / 0x1_0000 % 256
            && h[6] == sequence / 256 % 256 && h[7] == sequence % 256
            && (forall i :: 0 <= i < 8 ==> h[8 + i] == ToBe(timestamp, 8)[i])
            && h[15] == timestamp % 256
  {
    var h := Header(kind, length, sequence, timestamp);
    assert h[2..4] == ToBe(length, 2) && h[4..8] == ToBe(sequence, 4) && h[8..16] == ToBe(timestamp, 8);
    SmallPowers();
    BigEndian(length, 2, 0);
    BigEndian(length, 2, 1);
    BigEndian(sequence, 4, 0);
    BigEndian(sequence, 4, 1);
    BigEndian(sequence, 4, 2);
    BigEndian(sequence, 4, 3);
    BigEndian(timestamp, 8, 7);
    assert h[2] == h[2..4][0] && h[3] == h[2..4][1];
    assert h[4] == h[4..8][0] && h[5] == h[4..8][1] && h[6] == h[4..8][2] && h[7] == h[4..8][3];
    assert forall i :: 0 <= i < 8 ==> h[8 + i] == h[8..16][i];
  }

  lemma SmallPowers()
    ensures Pow256(0) == 1 && Pow256(1) == 256 && Pow256(2) == 0x1_0000 && Pow256(3) == 0x100_0000
  {
    assert Pow256(1) == 256 * Pow256(0);
    assert Pow256(2) == 256 * Pow256(1);
    assert Pow256(3) == 256 * Pow256(2);
  }

  /** A CONNECT_REQ: 80 bytes, the name at offset 16 and the public key at offset 48. */
  lemma ConnectRequestBytes(name: seq<byte>, pub: seq<byte>, sequence: nat, timestamp: nat)
    requires |name| == |pub| == 32
    ensures var d := ConnectRequest(name, pub, sequence, timestamp);
            |d| == 80 && d[..16] == Header(1, 64, sequence, timestamp) && d[16..48] == name && d[48..80] == pub
  {
  }

  /** What the server sends: 57 bytes of CONNECT_RESP, 16 of PONG, or DATA around the body. */
  lemma DatagramBytes(out: Output, sequence: nat, timestamp: nat)
    requires out.ConnectResp? ==> |out.serverPub| == 32
    ensures var d := Datagram(out, sequence, timestamp);
            && (out.ConnectResp? ==>
                  && |d| == 57 && d[..16] == Header(2, 41, sequence, timestamp) && d[16] == 0
                  && d[17..21] == ToBe(out.vpnIp, 4) && d[21..25] == ToBe(out.sessionId, 4)
                  && d[25..57] == out.serverPub)
            && (out.Pong? ==> d == Header(5, 0, sequence, timestamp))
            && (out.UdpData? ==> |d| == 16 + |out.body| && d[..16] == Header(3, |out.body|, sequence, timestamp)
                                 && d[16..] == out.body)
            && (!(out.ConnectResp? || out.Pong? || out.UdpData?) ==> d == [])
  {
  }
}
