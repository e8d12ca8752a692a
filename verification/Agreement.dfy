/** The enclave and a connected client hold the same session key. */
module Agreement {
  import opened Bytes
  import opened Crypto
  import K = KeyTable
  import T = ClientTable
  import opened Session
  import Slots
  import L = Ledger
  import A = Allocation

  /** Every CONNECT of the run carries its sender's one public key. */
  ghost predicate Faithful(events: seq<Event>, pubOf: T.Addr -> seq<byte>) {
    forall i :: 0 <= i < |events| && events[i].Udp? && events[i].packet.ConnectReq? ==>
      events[i].packet.pub == pubOf(events[i].from)
  }

  ghost function Published(c: Suite, privOf: T.Addr -> seq<byte>): T.Addr -> seq<byte> {
    (a: T.Addr) => c.publicOf(privOf(a))
  }

  /** Each address has one holder, every key stored under it is the holder's, and no
      address from the next allocation on has ever been handed out. */
  ghost predicate Owned(c: Suite, t: T.Table, k: K.Keys, h: History, pubOf: T.Addr -> seq<byte>) {
    && (forall i :: 0 <= i < |t.slots| && t.slots[i].active ==>
          t.slots[i].vpnIp in h.owner && h.owner[t.slots[i].vpnIp] == t.slots[i].addr)
    && (forall j :: 0 <= j < |k.slots| && k.slots[j].active ==>
          && k.slots[j].vpnIp in h.owner
          && SessionKey(c, k.priv, pubOf(h.owner[k.slots[j].vpnIp])) == Some(k.slots[j].sessionKey))
    && (forall ip :: ip in h.owner ==> T.FIRST_IP <= ip < T.FIRST_IP + h.issued)
  }

  lemma KeyPairFixed(c: Suite, s: State, e: Event)
    ensures Step(c, s, e).0.keys.priv == s.keys.priv && Step(c, s, e).0.keys.pub == s.keys.pub
  {
    match e
    case Udp(_, ConnectReq(_), _, _) =>
    case Udp(_, Disconnect, _, _) =>
    case Udp(_, Data(_), _, _) =>
    case Udp(_, Ping, _, _) =>
    case Udp(_, Other, _, _) =>
    case TunRead(_, _, _, _) =>
    case Idle(_) =>
  }

  lemma {:induction false} RunKeyPair(c: Suite, priv: seq<byte>, start: int, events: seq<Event>)
    ensures var k := Run(c, priv, start, events).s.keys; k.priv == priv && k.pub == c.publicOf(priv)
  {
    if events != [] {
      var before := events[..|events| - 1];
      RunKeyPair(c, priv, start, before);
      KeyPairFixed(c, Run(c, priv, start, before).s, events[|events| - 1]);
    }
  }

  /** Entering the client: a known one changes nothing owned, a fresh one takes an address
      nobody holds a key for. */
  lemma EnterOwned(c: Suite, w: World, a: T.Addr, pub: seq<byte>, now: int, id: nat, pubOf: T.Addr -> seq<byte>)
    requires T.Valid(w.s.clients) && A.Numbered(w.s.clients, w.h)
    requires Owned(c, w.s.clients, w.s.keys, w.h, pubOf)
    requires NoteConnect(c, w.h, w.s, a, pub, now, id).issued <= A.RANGE
    ensures var (t, ip) := T.AddClient(w.s.clients, a, now, id);
            var h := NoteConnect(c, w.h, w.s, a, pub, now, id);
            && Owned(c, t, w.s.keys, h, pubOf)
            && (ip != 0 ==> ip in h.owner && h.owner[ip] == a)
  {
    T.RoomIff(w.s.clients);
    var (t, ip) := T.AddClient(w.s.clients, a, now, id);
    if ip != 0 && !T.Knows(w.s.clients, a) {
      assert ip == T.FIRST_IP + w.h.issued;
      assert ip !in w.h.owner;
    }
  }

  lemma AddKeyOwned(c: Suite, t: T.Table, k: K.Keys, h: History, pubOf: T.Addr -> seq<byte>, ip: nat, pub: seq<byte>)
    requires Owned(c, t, k, h, pubOf) && ip in h.owner && pub == pubOf(h.owner[ip])
    ensures Owned(c, t, K.Handshake(c, k, ip, pub).0, h, pubOf)
  {
  }

  lemma ConnectOwned(c: Suite, w: World, a: T.Addr, pub: seq<byte>, now: int, id: nat, pubOf: T.Addr -> seq<byte>)
    requires T.Valid(w.s.clients) && A.Numbered(w.s.clients, w.h)
    requires Owned(c, w.s.clients, w.s.keys, w.h, pubOf)
    requires NoteConnect(c, w.h, w.s, a, pub, now, id).issued <= A.RANGE && pub == pubOf(a)
    ensures var s := Connect(c, w.s, a, pub, now, id).0;
            Owned(c, s.clients, s.keys, NoteConnect(c, w.h, w.s, a, pub, now, id), pubOf)
  {
    EnterOwned(c, w, a, pub, now, id, pubOf);
    var (t, ip) := T.AddClient(w.s.clients, a, now, id);
    var h := NoteConnect(c, w.h, w.s, a, pub, now, id);
    if ip != 0 {
      AddKeyOwned(c, t, w.s.keys, h, pubOf, ip, pub);
      var s := Connect(c, w.s, a, pub, now, id).0;
      A.StepThins(c, w.s, Udp(a, ConnectReq(pub), now, id));
      ThinOwned(c, t, K.Handshake(c, w.s.keys, ip, pub).0, h, s.clients, s.keys, h, pubOf);
    }
  }

  /** Removing entries and keys keeps ownership. */
  lemma ThinOwned(c: Suite, t: T.Table, k: K.Keys, h: History, t': T.Table, k': K.Keys, h': History,
      pubOf: T.Addr -> seq<byte>)
    requires Owned(c, t, k, h, pubOf)
    requires T.Thins(t, t')
    requires k' == k || exists ip :: k' == K.RemoveKey(k, ip)
    requires h'.owner == h.owner && h'.issued == h.issued
    ensures Owned(c, t', k', h', pubOf)
  {
  }

  lemma OthersOwned(c: Suite, w: World, e: Event, pubOf: T.Addr -> seq<byte>)
    requires Owned(c, w.s.clients, w.s.keys, w.h, pubOf)
    requires e.Udp? ==> !e.packet.ConnectReq?
    ensures var n := Next(c, w, e); Owned(c, n.s.clients, n.s.keys, n.h, pubOf)
  {
    var n := Next(c, w, e);
    A.StepThins(c, w.s, e);
    OthersKeepKeys(c, w, e);
    ThinOwned(c, w.s.clients, w.s.keys, w.h, n.s.clients, n.s.keys, n.h, pubOf);
  }

  lemma OthersKeepKeys(c: Suite, w: World, e: Event)
    requires e.Udp? ==> !e.packet.ConnectReq?
    ensures var n := Next(c, w, e);
            && (n.s.keys == w.s.keys || exists ip :: n.s.keys == K.RemoveKey(w.s.keys, ip))
            && n.h.owner == w.h.owner && n.h.issued == w.h.issued
  {
    match e
    case Udp(a, Disconnect, _, _) =>
      var i := T.SlotOfAddr(w.s.clients.slots, a);
      if i < |w.s.clients.slots| {
        assert Next(c, w, e).s.keys == K.RemoveKey(w.s.keys, w.s.clients.slots[i].vpnIp);
      }
    case Udp(_, Data(_), _, _) =>
    case Udp(_, Ping, _, _) =>
    case Udp(_, Other, _, _) =>
    case TunRead(_, _, _, _) =>
    case Idle(_) =>
  }

  lemma NextOwned(c: Suite, w: World, e: Event, pubOf: T.Addr -> seq<byte>)
    requires T.Valid(w.s.clients) && A.Numbered(w.s.clients, w.h)
    requires Owned(c, w.s.clients, w.s.keys, w.h, pubOf)
    requires Next(c, w, e).h.issued <= A.RANGE && Faithful([e], pubOf)
    ensures var n := Next(c, w, e); Owned(c, n.s.clients, n.s.keys, n.h, pubOf)
  {
    assert [e][0] == e;
    match e
    case Udp(a, ConnectReq(pub), now, id) => ConnectOwned(c, w, a, pub, now, id, pubOf);
    case _ => OthersOwned(c, w, e, pubOf);
  }

  lemma IssuedGrows(c: Suite, w: World, e: Event)
    ensures w.h.issued <= Next(c, w, e).h.issued
  {
  }

  lemma {:induction false} RunOwned(c: Suite, priv: seq<byte>, start: int, events: seq<Event>,
      pubOf: T.Addr -> seq<byte>)
    requires Lawful(c) && Faithful(events, pubOf)
    requires Run(c, priv, start, events).h.issued <= A.RANGE
    ensures var w := Run(c, priv, start, events); Owned(c, w.s.clients, w.s.keys, w.h, pubOf)
  {
    if events != [] {
      var before, e := events[..|events| - 1], events[|events| - 1];
      var w := Run(c, priv, start, before);
      IssuedGrows(c, w, e);
      RunOwned(c, priv, start, before, pubOf);
      L.RunBalances(c, priv, start, before);
      A.RunNumbered(c, priv, start, before);
      NextOwned(c, w, e, pubOf);
    }
  }

  /** An address that no other active client shares is counted once. */
  lemma CountedOnce(t: T.Table, i: nat)
    requires i < |t.slots| && t.slots[i].active
    requires forall j :: 0 <= j < |t.slots| && j != i && t.slots[j].active ==> t.slots[j].vpnIp != t.slots[i].vpnIp
    ensures T.Ips(t)[t.slots[i].vpnIp] == 1
  {
    var ip, e := t.slots[i].vpnIp, t.slots[i].(active := false);
    var t' := t.(slots := t.slots[i := e]);
    Slots.TallyUpdate(t.slots, i, e, T.Tag);
    T.AddressIff(t', ip);
    assert T.SlotOfIp(t'.slots, ip) == |t'.slots|;
    assert T.Ips(t') + multiset{ip} == T.Ips(t) + multiset{};
    assert (T.Ips(t') + multiset{ip})[ip] == 1;
  }

  lemma UnwrappedOnce(t: T.Table, h: History, i: nat)
    requires A.Numbered(t, h) && h.issued <= A.RANGE && i < |t.slots| && t.slots[i].active
    ensures T.Ips(t)[t.slots[i].vpnIp] == 1
  {
    forall j | 0 <= j < |t.slots| && j != i && t.slots[j].active ensures t.slots[j].vpnIp != t.slots[i].vpnIp {
      if i < j {
        A.Unwrapped(t, h, i, j);
      } else {
        A.Unwrapped(t, h, j, i);
      }
    }
    CountedOnce(t, i);
  }

  /** The enclave finds a key for a client held once exactly when no more keys of its address
      were dropped than the surplus makes up for. */
  lemma HeldIff(w: World, ip: nat)
    requires L.Balanced(w) && T.Ips(w.s.clients)[ip] == 1
    ensures K.GetKey(w.s.keys, ip).Some? <==> w.h.dropped[ip] <= L.Surplus(w.h)[ip]
  {
    K.FoundIff(w.s.keys, ip);
    assert (K.Ips(w.s.keys) + w.h.dropped)[ip] == (T.Ips(w.s.clients) + L.Surplus(w.h))[ip];
  }

  /** The key looked up for client i is the one it derives from its own private key and the
      server's public key. */
  ghost predicate Agrees(c: Suite, s: State, privOf: T.Addr -> seq<byte>, i: nat)
    requires i < |s.clients.slots|
  {
    var e := s.clients.slots[i];
    && K.GetKey(s.keys, e.vpnIp).Some?
    && K.GetKey(s.keys, e.vpnIp) == SessionKey(c, privOf(e.addr), s.keys.pub)
  }

  /** End-to-end agreement: after any run with at most 254 fresh allocations in which every
      peer keeps one key pair, enclave and client agree on the key of an active client if and
      only if no more keys of its address were dropped than the surplus makes up for.
      Re-CONNECTs, rollbacks and timeouts are all allowed. */
  lemma KeyAgreement(c: Suite, priv: seq<byte>, start: int, events: seq<Event>,
      privOf: T.Addr -> seq<byte>, i: nat)
    requires Lawful(c) && Faithful(events, Published(c, privOf))
    requires var w := Run(c, priv, start, events);
             && w.h.issued <= A.RANGE
             && i < |w.s.clients.slots| && w.s.clients.slots[i].active
    ensures var w := Run(c, priv, start, events);
            var ip := w.s.clients.slots[i].vpnIp;
            Agrees(c, w.s, privOf, i) <==> w.h.dropped[ip] <= L.Surplus(w.h)[ip]
  {
    var w := Run(c, priv, start, events);
    var e := w.s.clients.slots[i];
    L.RunBalances(c, priv, start, events);
    A.RunNumbered(c, priv, start, events);
    UnwrappedOnce(w.s.clients, w.h, i);
    HeldIff(w, e.vpnIp);
    KeyAgreementFound(c, priv, start, events, privOf, i);
  }

  /** In such a run a key that is found is the client's. */
  lemma KeyAgreementFound(c: Suite, priv: seq<byte>, start: int, events: seq<Event>,
      privOf: T.Addr -> seq<byte>, i: nat)
    requires Lawful(c) && Faithful(events, Published(c, privOf))
    requires var w := Run(c, priv, start, events);
             && w.h.issued <= A.RANGE
             && i < |w.s.clients.slots| && w.s.clients.slots[i].active
    ensures var s := Run(c, priv, start, events).s;
            Agrees(c, s, privOf, i) <==> K.GetKey(s.keys, s.clients.slots[i].vpnIp).Some?
  {
    RunOwned(c, priv, start, events, Published(c, privOf));
    RunKeyPair(c, priv, start, events);
    OwnedAgrees(c, Run(c, priv, start, events), privOf, i);
  }

  /** A key found for an owned address is its holder's. */
  lemma OwnedAgrees(c: Suite, w: World, privOf: T.Addr -> seq<byte>, i: nat)
    requires Lawful(c) && Owned(c, w.s.clients, w.s.keys, w.h, Published(c, privOf))
    requires i < |w.s.clients.slots| && w.s.clients.slots[i].active && w.s.keys.pub == c.publicOf(w.s.keys.priv)
    ensures Agrees(c, w.s, privOf, i) <==> K.GetKey(w.s.keys, w.s.clients.slots[i].vpnIp).Some?
  {
    KeysAgree(c, w.s.keys.priv, privOf(w.s.clients.slots[i].addr));
  }

  /** The same with no hypothesis on the run: right after an answered CONNECT, the lookup
      gives the key of this handshake exactly when the first free key slot lies below every
      slot already holding the address, or the key there is the same. With the key table
      full there is no free slot, and only the second can hold. */
  lemma AnsweredConnectAgreesIff(c: Suite, s: State, a: T.Addr, pub: seq<byte>, now: int, id: nat)
    requires Connect(c, s, a, pub, now, id).1.ConnectResp?
    ensures var (s', out) := Connect(c, s, a, pub, now, id);
            K.GetKey(s'.keys, out.vpnIp) == SessionKey(c, s.keys.priv, pub) <==>
              || K.FreeSlot(s.keys.slots) < K.SlotOf(s.keys.slots, out.vpnIp)
              || K.GetKey(s.keys, out.vpnIp) == SessionKey(c, s.keys.priv, pub)
  {
    var ip := T.AddClient(s.clients, a, now, id).1;
    if !K.Full(s.keys) {
      K.LookupAfterAdd(s.keys, ip, SessionKey(c, s.keys.priv, pub).value, ip);
    }
  }

  /** A second handshake under an address whose key sits in slot 0 changes no lookup. */
  lemma SecondHandshake(c: Suite, k: K.Keys, ip: nat, pub: seq<byte>)
    requires |k.slots| > 0 && k.slots[0].active && k.slots[0].vpnIp == ip
    ensures K.GetKey(K.Handshake(c, k, ip, pub).0, ip) == Some(k.slots[0].sessionKey)
  {
    var k' := K.Handshake(c, k, ip, pub).0;
    assert K.SlotOf(k.slots, ip) == 0;
    assert K.FreeSlot(k.slots) > 0;
    assert k'.slots[0] == k.slots[0];
    assert K.SlotOf(k'.slots, ip) == 0;
  }

  /** Agreement does fail when a peer comes back with another key pair: the CONNECT is
      answered, and the enclave goes on using the first key. */
  lemma StaleKey(c: Suite, priv: seq<byte>, start: int, a: T.Addr, pub1: seq<byte>, pub2: seq<byte>)
    requires Lawful(c)
    requires SessionKey(c, priv, pub1).Some? && SessionKey(c, priv, pub2).Some?
    requires SessionKey(c, priv, pub1) != SessionKey(c, priv, pub2)
    ensures var s0 := Boot(c, priv, start);
            var s1 := Connect(c, s0, a, pub1, start, 1).0;
            var (s2, out) := Connect(c, s1, a, pub2, start, 2);
            && out.ConnectResp? && out.to == a
            && K.GetKey(s2.keys, out.vpnIp) == SessionKey(c, priv, pub1)
  {
    var s0 := Boot(c, priv, start);
    T.InitValid();
    T.AddClientKeeps(s0.clients, a, start, 1);
    T.AddClientKnows(s0.clients, a, start, 1, a);
    var (t1, ip) := T.AddClient(s0.clients, a, start, 1);
    assert !s0.keys.slots[0].active;
    var k1 := K.Handshake(c, s0.keys, ip, pub1).0;
    assert k1.slots[0] == K.Entry(ip, SessionKey(c, priv, pub1).value, true);
    T.AddClientKeeps(t1, a, start, 2);
    SecondHandshake(c, k1, ip, pub2);
  }
}
