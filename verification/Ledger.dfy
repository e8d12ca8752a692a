/** Conservation between the two tables, over every run. */
module Ledger {
  import opened Bytes
  import opened Crypto
  import K = KeyTable
  import T = ClientTable
  import opened Session

  ghost function Surplus(h: History): multiset<nat> {
    h.reconnects + h.rollbacks + h.timeouts
  }

  /** The books balance address by address: keys held plus keys dropped equal clients
      entered plus the surplus left behind by re-CONNECTs, rollbacks and timeouts. */
  ghost predicate Balanced(w: World) {
    && T.Valid(w.s.clients)
    && K.Valid(w.s.keys)
    && K.Ips(w.s.keys) + w.h.dropped == T.Ips(w.s.clients) + Surplus(w.h)
  }

  lemma HandshakeIps(c: Suite, k: K.Keys, ip: nat, pub: seq<byte>)
    requires Lawful(c) && K.Valid(k)
    ensures var (k', key) := K.Handshake(c, k, ip, pub);
            K.Valid(k') && K.Ips(k') == K.Ips(k) + Single(ip, key.Some? && !K.Full(k))
  {
    var key := SessionKey(c, k.priv, pub);
    if key.Some? {
      K.AddKeyKeeps(k, ip, key.value);
    }
  }

  /** Entering and, when the handshake failed, removing again: the lowest slot under the
      address goes, which need not be the one just entered. */
  lemma RollbackIps(t: T.Table, a: T.Addr, now: int, id: nat)
    requires T.Valid(t) && T.AddClient(t, a, now, id).1 != 0
    ensures var (t', ip) := T.AddClient(t, a, now, id);
            && T.Valid(T.RemoveClient(t', ip))
            && T.Ips(T.RemoveClient(t', ip)) + Single(ip, T.Knows(t, a)) == T.Ips(t)
  {
    T.AddClientKeeps(t, a, now, id);
    var (t', ip) := T.AddClient(t, a, now, id);
    T.RemoveClientKeeps(t', ip);
    T.AddressIff(t', ip);
    EntryCounted(t', T.SlotOfAddr(t'.slots, a));
  }

  lemma EntryCounted(t: T.Table, i: nat)
    requires i < |t.slots| && t.slots[i].active
    ensures t.slots[i].vpnIp in T.Ips(t)
  {
    T.AddressIff(t, t.slots[i].vpnIp);
  }

  lemma ConnectIps(c: Suite, s: State, a: T.Addr, pub: seq<byte>, now: int, id: nat)
    requires Lawful(c) && T.Valid(s.clients) && K.Valid(s.keys)
    requires T.AddClient(s.clients, a, now, id).1 != 0
    ensures var ip := T.AddClient(s.clients, a, now, id).1;
            var known, ok, full := T.Knows(s.clients, a), SessionKey(c, s.keys.priv, pub).Some?, K.Full(s.keys);
            var s' := Connect(c, s, a, pub, now, id).0;
            && T.Valid(s'.clients) && K.Valid(s'.keys)
            && K.Ips(s'.keys) == K.Ips(s.keys) + Single(ip, ok && !full)
            && T.Ips(s'.clients) + Single(ip, known && !ok) == T.Ips(s.clients) + Single(ip, !known && ok)
  {
    HandshakeIps(c, s.keys, T.AddClient(s.clients, a, now, id).1, pub);
    if SessionKey(c, s.keys.priv, pub).Some? {
      T.AddClientKeeps(s.clients, a, now, id);
    } else {
      RollbackIps(s.clients, a, now, id);
    }
  }

  /** The books stay balanced when an accepted CONNECT is entered. */
  lemma EnterConnect(k: multiset<nat>, t: multiset<nat>, t': multiset<nat>, h: History,
      ip: nat, known: bool, ok: bool, full: bool)
    requires k + h.dropped == t + Surplus(h)
    requires t' + Single(ip, known && !ok) == t + Single(ip, !known && ok)
    ensures (k + Single(ip, ok && !full)) + (h.dropped + Single(ip, !known && ok && full))
            == t' + ((h.reconnects + Single(ip, known && ok && !full))
                     + (h.rollbacks + Single(ip, known && !ok)) + h.timeouts)
  {
    var x := (k + Single(ip, ok && !full)) + (h.dropped + Single(ip, !known && ok && full));
    var y := t' + ((h.reconnects + Single(ip, known && ok && !full))
                   + (h.rollbacks + Single(ip, known && !ok)) + h.timeouts);
    forall n: nat ensures x[n] == y[n] {
      assert (k + h.dropped)[n] == (t + Surplus(h))[n];
      assert (t' + Single(ip, known && !ok))[n] == (t + Single(ip, !known && ok))[n];
    }
  }

  lemma ConnectBalances(c: Suite, w: World, a: T.Addr, pub: seq<byte>, now: int, id: nat)
    requires Lawful(c) && Balanced(w)
    ensures Balanced(Next(c, w, Udp(a, ConnectReq(pub), now, id)))
  {
    var ip := T.AddClient(w.s.clients, a, now, id).1;
    if ip == 0 {
      T.AddClientKeeps(w.s.clients, a, now, id);
    } else {
      ConnectIps(c, w.s, a, pub, now, id);
      EnterConnect(K.Ips(w.s.keys), T.Ips(w.s.clients), T.Ips(Connect(c, w.s, a, pub, now, id).0.clients), w.h,
        ip, T.Knows(w.s.clients, a), SessionKey(c, w.s.keys.priv, pub).Some?, K.Full(w.s.keys));
    }
  }

  /** The books stay balanced when a client leaves: a key goes with it, or else one that
      was dropped. */
  lemma EnterLeave(k: multiset<nat>, t: multiset<nat>, d: multiset<nat>, u: multiset<nat>, ip: nat)
    requires k + d == t + u && ip in t
    ensures (k - multiset{ip}) + (if ip in k then d else d - multiset{ip}) == (t - multiset{ip}) + u
  {
    var x := (k - multiset{ip}) + (if ip in k then d else d - multiset{ip});
    var y := (t - multiset{ip}) + u;
    forall n: nat ensures x[n] == y[n] {
      assert (k + d)[n] == (t + u)[n];
    }
  }

  lemma LeaveIps(s: State, a: T.Addr, i: nat)
    requires T.Valid(s.clients) && K.Valid(s.keys)
    requires i == T.SlotOfAddr(s.clients.slots, a) && i < |s.clients.slots|
    ensures var ip, s' := s.clients.slots[i].vpnIp, Leave(s, a).0;
            && T.Valid(s'.clients) && K.Valid(s'.keys)
            && ip in T.Ips(s.clients)
            && T.Ips(s'.clients) == T.Ips(s.clients) - multiset{ip}
            && K.Ips(s'.keys) == K.Ips(s.keys) - multiset{ip}
  {
    var ip := s.clients.slots[i].vpnIp;
    T.RemoveClientKeeps(s.clients, ip);
    K.RemoveKeyKeeps(s.keys, ip);
    EntryCounted(s.clients, i);
  }

  lemma LeaveBalances(c: Suite, w: World, a: T.Addr, now: int, id: nat)
    requires Balanced(w)
    ensures Balanced(Next(c, w, Udp(a, Disconnect, now, id)))
  {
    var i := T.SlotOfAddr(w.s.clients.slots, a);
    if i < |w.s.clients.slots| {
      var ip, d := w.s.clients.slots[i].vpnIp, w.h.dropped;
      LeaveIps(w.s, a, i);
      EnterLeave(K.Ips(w.s.keys), T.Ips(w.s.clients), d, Surplus(w.h), ip);
      var n := Next(c, w, Udp(a, Disconnect, now, id));
      assert n == World(Leave(w.s, a).0, NoteLeave(w.h, w.s, a));
      assert n.h.dropped == if ip in K.Ips(w.s.keys) then d else d - multiset{ip};
      assert Surplus(n.h) == Surplus(w.h);
    }
  }

  lemma RestBalances(c: Suite, w: World, now: int)
    requires Balanced(w)
    ensures Balanced(Next(c, w, Idle(now)))
  {
    T.SweepExact(w.s.clients, now);
  }

  /** A refreshed entry changes no address. */
  lemma TouchBalances(w: World, i: nat, now: int, h: History)
    requires Balanced(w) && i < |w.s.clients.slots|
    requires h == w.h.(activity := h.activity)
    ensures Balanced(World(w.s.(clients := T.Touch(w.s.clients, i, now)), h))
  {
    T.TouchKeeps(w.s.clients, i, now);
  }

  lemma HeardBalances(c: Suite, w: World, e: Event)
    requires Balanced(w) && e.Udp? && (e.packet.Data? || e.packet.Ping?)
    ensures Balanced(Next(c, w, e))
  {
    var i := T.SlotOfAddr(w.s.clients.slots, e.from);
    if i < |w.s.clients.slots| {
      TouchBalances(w, i, e.now, Next(c, w, e).h);
    }
  }

  lemma ForwardBalances(c: Suite, w: World, e: Event)
    requires Balanced(w) && e.TunRead?
    ensures Balanced(Next(c, w, e))
  {
    var i := Route(w.s.clients, e.ipPacket);
    if i < |w.s.clients.slots| {
      TouchBalances(w, i, e.now, Next(c, w, e).h);
    }
  }

  lemma NextBalances(c: Suite, w: World, e: Event)
    requires Lawful(c) && Balanced(w)
    ensures Balanced(Next(c, w, e))
  {
    match e
    case Udp(a, ConnectReq(pub), now, id) => ConnectBalances(c, w, a, pub, now, id);
    case Udp(a, Disconnect, now, id) => LeaveBalances(c, w, a, now, id);
    case Idle(now) => RestBalances(c, w, now);
    case Udp(_, Data(_), _, _) => HeardBalances(c, w, e);
    case Udp(_, Ping, _, _) => HeardBalances(c, w, e);
    case Udp(_, Other, _, _) =>
    case TunRead(_, _, _, _) => ForwardBalances(c, w, e);
  }

  /** Conservation over every run whatever, full tables and wrapped addresses included. */
  lemma {:induction false} RunBalances(c: Suite, priv: seq<byte>, start: int, events: seq<Event>)
    requires Lawful(c)
    ensures Balanced(Run(c, priv, start, events))
  {
    if events == [] {
      T.InitValid();
      K.InitValid(priv, c.publicOf(priv));
    } else {
      var before := events[..|events| - 1];
      RunBalances(c, priv, start, before);
      NextBalances(c, Run(c, priv, start, before), events[|events| - 1]);
    }
  }

  // ---- Consequences ----

  /** Each address has at least as many keys as clients exactly when no more keys were
      dropped for it than the surplus makes up for. */
  lemma CoverIff(w: World)
    requires Balanced(w)
    ensures T.Ips(w.s.clients) <= K.Ips(w.s.keys) <==> w.h.dropped <= Surplus(w.h)
  {
    var k, t, d, u := K.Ips(w.s.keys), T.Ips(w.s.clients), w.h.dropped, Surplus(w.h);
    forall n: nat ensures t[n] <= k[n] <==> d[n] <= u[n] {
      assert (k + d)[n] == (t + u)[n];
    }
    assert t <= k <==> forall n: nat :: t[n] <= k[n];
    assert d <= u <==> forall n: nat :: d[n] <= u[n];
  }

  /** A CONNECT that add_client accepts. */
  ghost predicate Accepted(s: State, e: Event) {
    e.Udp? && e.packet.ConnectReq? && s.clients.count < T.MAX_CLIENTS
  }

  /** No accepted CONNECT of the run met a full key table. */
  ghost predicate Roomy(c: Suite, priv: seq<byte>, start: int, events: seq<Event>) {
    events != [] ==>
      var before := events[..|events| - 1];
      && Roomy(c, priv, start, before)
      && (Accepted(Run(c, priv, start, before).s, events[|events| - 1]) ==>
            !K.Full(Run(c, priv, start, before).s.keys))
  }

  lemma ConnectDrops(c: Suite, w: World, a: T.Addr, pub: seq<byte>, now: int, id: nat)
    requires Balanced(w) && w.h.dropped == multiset{}
    requires w.s.clients.count < T.MAX_CLIENTS ==> !K.Full(w.s.keys)
    ensures NoteConnect(c, w.h, w.s, a, pub, now, id).dropped == multiset{}
  {
    T.AddClientKeeps(w.s.clients, a, now, id);
    T.RoomIff(w.s.clients);
  }

  lemma StepDrops(c: Suite, w: World, e: Event)
    requires Balanced(w) && w.h.dropped == multiset{}
    requires Accepted(w.s, e) ==> !K.Full(w.s.keys)
    ensures Next(c, w, e).h.dropped == multiset{}
  {
    match e
    case Udp(a, ConnectReq(pub), now, id) => ConnectDrops(c, w, a, pub, now, id);
    case _ =>
  }

  lemma {:induction false} RoomyDropsNothing(c: Suite, priv: seq<byte>, start: int, events: seq<Event>)
    requires Lawful(c) && Roomy(c, priv, start, events)
    ensures Run(c, priv, start, events).h.dropped == multiset{}
  {
    if events != [] {
      var before := events[..|events| - 1];
      RoomyDropsNothing(c, priv, start, before);
      RunBalances(c, priv, start, before);
      StepDrops(c, Run(c, priv, start, before), events[|events| - 1]);
    }
  }

  /** In such a run every address has as many keys as clients, or more. */
  lemma KeysCoverClients(c: Suite, priv: seq<byte>, start: int, events: seq<Event>)
    requires Lawful(c) && Roomy(c, priv, start, events)
    ensures T.Ips(Run(c, priv, start, events).s.clients) <= K.Ips(Run(c, priv, start, events).s.keys)
  {
    RunBalances(c, priv, start, events);
    RoomyDropsNothing(c, priv, start, events);
    CoverIff(Run(c, priv, start, events));
  }

  /** A client whose address is covered has a key, so its traffic finds one. */
  lemma ActiveHasKey(s: State, i: nat)
    requires T.Ips(s.clients) <= K.Ips(s.keys)
    requires i < |s.clients.slots| && s.clients.slots[i].active
    ensures K.GetKey(s.keys, s.clients.slots[i].vpnIp).Some?
  {
    var ip := s.clients.slots[i].vpnIp;
    T.AddressIff(s.clients, ip);
    K.FoundIff(s.keys, ip);
  }

  lemma DataFindsKey(c: Suite, s: State, a: T.Addr, body: seq<byte>, now: int)
    requires T.Ips(s.clients) <= K.Ips(s.keys)
    ensures !Receive(c, s, a, body, now).1.KeyNotFound?
  {
    if T.Knows(s.clients, a) {
      ActiveHasKey(s, T.SlotOfAddr(s.clients.slots, a));
    }
  }

  lemma TunFindsKey(c: Suite, s: State, p: seq<byte>, nonce: seq<byte>, sent: bool, now: int)
    requires T.Ips(s.clients) <= K.Ips(s.keys)
    ensures !Forward(c, s, p, nonce, sent, now).1.KeyNotFound?
  {
    if Route(s.clients, p) < |s.clients.slots| {
      ActiveHasKey(s, Route(s.clients, p));
    }
  }

  /** The enclave's "Key not found" answer reaches no step that extends such a run. */
  lemma KeyAlwaysFound(c: Suite, priv: seq<byte>, start: int, events: seq<Event>, e: Event)
    requires Lawful(c) && Roomy(c, priv, start, events)
    ensures !Step(c, Run(c, priv, start, events).s, e).1.KeyNotFound?
  {
    KeysCoverClients(c, priv, start, events);
    var s := Run(c, priv, start, events).s;
    match e
    case Udp(a, Data(body), now, _) => DataFindsKey(c, s, a, body, now);
    case TunRead(p, nonce, sent, now) => TunFindsKey(c, s, p, nonce, sent, now);
    case _ =>
  }

  /** The surplus only grows. */
  lemma SurplusGrows(c: Suite, w: World, e: Event)
    ensures Surplus(w.h) <= Surplus(Next(c, w, e).h)
  {
  }

  /** Capacity: the 256 key slots serve 254 clients with a surplus of two, whatever the
      run did. */
  lemma {:induction false} SmallSurplusIsRoomy(c: Suite, priv: seq<byte>, start: int, events: seq<Event>)
    requires Lawful(c) && |Surplus(Run(c, priv, start, events).h)| <= 2
    ensures Roomy(c, priv, start, events)
  {
    if events != [] {
      var before := events[..|events| - 1];
      var w, e := Run(c, priv, start, before), events[|events| - 1];
      SurplusGrows(c, w, e);
      SubsetSize(Surplus(w.h), Surplus(Next(c, w, e).h));
      SmallSurplusIsRoomy(c, priv, start, before);
      RunBalances(c, priv, start, before);
      assert |K.Ips(w.s.keys) + w.h.dropped| == |T.Ips(w.s.clients) + Surplus(w.h)|;
      K.FullIff(w.s.keys);
    }
  }

  lemma SubsetSize(a: multiset<nat>, b: multiset<nat>)
    requires a <= b
    ensures |a| <= |b|
  {
    assert b == a + (b - a);
  }

  /** The sizes: keys held and dropped against clients, re-CONNECTs, rollbacks and
      timeouts, in every run. */
  lemma Conservation(c: Suite, priv: seq<byte>, start: int, events: seq<Event>)
    requires Lawful(c)
    ensures var w := Run(c, priv, start, events);
            w.s.keys.count + |w.h.dropped|
            == w.s.clients.count + |w.h.reconnects| + |w.h.rollbacks| + |w.h.timeouts|
  {
    RunBalances(c, priv, start, events);
    var w := Run(c, priv, start, events);
    assert |K.Ips(w.s.keys) + w.h.dropped| == |T.Ips(w.s.clients) + Surplus(w.h)|;
  }

  lemma OnlyConnectResponds(c: Suite, s: State, e: Event)
    requires e.Udp? ==> !e.packet.ConnectReq?
    ensures !Step(c, s, e).1.NullClient? && !Step(c, s, e).1.ConnectResp?
  {
    match e
    case Udp(_, Data(_), _, _) =>
    case Udp(_, Ping, _, _) =>
    case Udp(_, Disconnect, _, _) =>
    case Udp(_, Other, _, _) =>
    case TunRead(_, _, _, _) =>
    case Idle(_) =>
  }

  /** s' has the peer of the response entered as the response says. */
  ghost predicate Names(s: State, out: Output, a: T.Addr) {
    out.ConnectResp? ==>
      var i := T.SlotOfAddr(s.clients.slots, a);
      && out.to == a && i < |s.clients.slots|
      && s.clients.slots[i].vpnIp == out.vpnIp && s.clients.slots[i].sessionId == out.sessionId
      && out.serverPub == s.keys.pub
  }

  lemma ConnectNames(c: Suite, s: State, a: T.Addr, pub: seq<byte>, now: int, id: nat)
    requires T.Valid(s.clients)
    ensures var (s', out) := Connect(c, s, a, pub, now, id); !out.NullClient? && Names(s', out, a)
  {
    T.AddClientKeeps(s.clients, a, now, id);
  }

  /** The unchecked lookup after a handshake never yields NULL, and CONNECT_RESP carries
      the address under which the sender is now entered. */
  lemma ResponseNamesEntry(c: Suite, priv: seq<byte>, start: int, events: seq<Event>, e: Event)
    requires Lawful(c)
    ensures var (s, out) := Step(c, Run(c, priv, start, events).s, e);
            !out.NullClient? && (out.ConnectResp? ==> e.Udp? && Names(s, out, e.from))
  {
    var s := Run(c, priv, start, events).s;
    if e.Udp? && e.packet.ConnectReq? {
      RunBalances(c, priv, start, events);
      ConnectNames(c, s, e.from, e.packet.pub, e.now, e.sessionId);
    } else {
      OnlyConnectResponds(c, s, e);
    }
  }
}
