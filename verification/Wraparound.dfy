/** What happens at the 255th allocation: a run that reaches it, and so the exact bound of
    everything that holds up to 254. */
module Wraparound {
  import opened Bytes
  import opened Crypto
  import K = KeyTable
  import T = ClientTable
  import opened Session
  import L = Ledger
  import A = Allocation
  import G = Agreement
  import C = Capacity
  import U = Tunnel

  // ---- The run: one host, 253 short visits, one guest ----

  function Peer(i: nat): T.Addr {
    T.Addr(i, 0)
  }

  function Bye(i: nat): Event {
    Udp(Peer(i), Disconnect, 0, 0)
  }

  /** Peer 0 connects and stays; peers 1 to k each connect and disconnect. */
  function Visits(k: nat, pub0: seq<byte>, pub1: seq<byte>): seq<Event> {
    if k == 0 then [C.Hello(0, pub0)] else Visits(k - 1, pub0, pub1) + [C.Hello(k, pub1)] + [Bye(k)]
  }

  /** Then one more connects, the 255th to be given an address. */
  function Wrap(pub0: seq<byte>, pub1: seq<byte>): seq<Event> {
    Visits(253, pub0, pub1) + [C.Hello(254, pub1)]
  }

  function Two(pub0: seq<byte>, pub1: seq<byte>): T.Addr -> seq<byte> {
    (a: T.Addr) => if a == Peer(0) then pub0 else pub1
  }

  lemma {:induction false} VisitsFaithful(k: nat, pub0: seq<byte>, pub1: seq<byte>)
    ensures G.Faithful(Visits(k, pub0, pub1), Two(pub0, pub1))
  {
    if k > 0 {
      VisitsFaithful(k - 1, pub0, pub1);
    }
  }

  // ---- The two states it alternates between ----

  /** The host alone, in slot 0 of both tables. */
  ghost predicate Home(s: State, key0: seq<byte>, next: nat) {
    && |s.clients.slots| == T.MAX_CLIENTS && s.clients.count == 1 && T.NextIp(s.clients) == next
    && s.clients.slots[0].active && s.clients.slots[0].addr == Peer(0) && s.clients.slots[0].vpnIp == T.FIRST_IP
    && (forall i :: 1 <= i < T.MAX_CLIENTS ==> !s.clients.slots[i].active)
    && |s.keys.slots| == K.MAX_KEYS && s.keys.slots[0] == K.Entry(T.FIRST_IP, key0, true)
    && (forall i :: 1 <= i < K.MAX_KEYS ==> !s.keys.slots[i].active)
  }

  /** The host and a guest in slot 1. */
  ghost predicate Visited(s: State, key0: seq<byte>, a: T.Addr, ip: nat, key1: seq<byte>, next: nat) {
    && |s.clients.slots| == T.MAX_CLIENTS && s.clients.count == 2 && T.NextIp(s.clients) == next
    && s.clients.slots[0].active && s.clients.slots[0].addr == Peer(0) && s.clients.slots[0].vpnIp == T.FIRST_IP
    && s.clients.slots[1].active && s.clients.slots[1].addr == a && s.clients.slots[1].vpnIp == ip
    && (forall i :: 2 <= i < T.MAX_CLIENTS ==> !s.clients.slots[i].active)
    && |s.keys.slots| == K.MAX_KEYS && s.keys.slots[0] == K.Entry(T.FIRST_IP, key0, true)
    && s.keys.slots[1] == K.Entry(ip, key1, true)
    && (forall i :: 2 <= i < K.MAX_KEYS ==> !s.keys.slots[i].active)
  }

  /** Nothing out of the ordinary so far, with n addresses given. */
  ghost predicate Calm(h: History, n: nat) {
    h.issued == n && L.Surplus(h) == multiset{} && h.dropped == multiset{}
  }

  function After(ip: nat): nat {
    if ip == T.LAST_IP then T.FIRST_IP else ip + 1
  }

  lemma HostEnters(c: Suite, priv: seq<byte>, start: int, pub: seq<byte>)
    requires Lawful(c) && SessionKey(c, priv, pub).Some?
    ensures var w := Next(c, Begin(c, priv, start), C.Hello(0, pub));
            Home(w.s, SessionKey(c, priv, pub).value, T.FIRST_IP + 1) && Calm(w.h, 1)
  {
    var s := Boot(c, priv, start);
    assert !s.clients.slots[0].active && !s.keys.slots[0].active;
    assert T.FreeSlot(s.clients.slots) == 0 && K.FreeSlot(s.keys.slots) == 0;
  }

  lemma GuestEnters(c: Suite, s: State, key0: seq<byte>, a: T.Addr, ip: nat, pub: seq<byte>)
    requires Home(s, key0, ip) && T.FIRST_IP <= ip <= T.LAST_IP && a != Peer(0)
    requires SessionKey(c, s.keys.priv, pub).Some?
    ensures Visited(Connect(c, s, a, pub, 0, 1).0, key0, a, ip, SessionKey(c, s.keys.priv, pub).value, After(ip))
    ensures !T.Knows(s.clients, a) && !K.Full(s.keys) && T.AddClient(s.clients, a, 0, 1).1 == ip
  {
    assert !s.clients.slots[1].active && !s.keys.slots[1].active;
    assert T.FreeSlot(s.clients.slots) == 1 && K.FreeSlot(s.keys.slots) == 1;
  }

  lemma GuestLeaves(s: State, key0: seq<byte>, a: T.Addr, ip: nat, key1: seq<byte>, next: nat)
    requires Visited(s, key0, a, ip, key1, next) && a != Peer(0) && ip != T.FIRST_IP
    ensures Home(Leave(s, a).0, key0, next) && T.Knows(s.clients, a)
    ensures s.clients.slots[T.SlotOfAddr(s.clients.slots, a)].vpnIp == ip && K.GetKey(s.keys, ip).Some?
  {
    assert T.SlotOfAddr(s.clients.slots, a) == 1 && T.SlotOfIp(s.clients.slots, ip) == 1;
    assert K.SlotOf(s.keys.slots, ip) == 1;
  }

  lemma GuestNoted(c: Suite, w: World, a: T.Addr, pub: seq<byte>, n: nat)
    requires Calm(w.h, n) && !T.Knows(w.s.clients, a) && !K.Full(w.s.keys)
    requires T.AddClient(w.s.clients, a, 0, 1).1 != 0 && SessionKey(c, w.s.keys.priv, pub).Some?
    ensures Calm(NoteConnect(c, w.h, w.s, a, pub, 0, 1), n + 1)
  {
  }

  lemma LeaveNoted(w: World, a: T.Addr, n: nat)
    requires Calm(w.h, n) && T.Knows(w.s.clients, a)
    requires K.GetKey(w.s.keys, w.s.clients.slots[T.SlotOfAddr(w.s.clients.slots, a)].vpnIp).Some?
    ensures Calm(NoteLeave(w.h, w.s, a), n)
  {
    K.FoundIff(w.s.keys, w.s.clients.slots[T.SlotOfAddr(w.s.clients.slots, a)].vpnIp);
  }

  /** One visit. */
  lemma Visit(c: Suite, w: World, key0: seq<byte>, k: nat, pub: seq<byte>)
    requires 1 <= k <= 253 && Home(w.s, key0, T.FIRST_IP + k) && Calm(w.h, k)
    requires SessionKey(c, w.s.keys.priv, pub).Some?
    ensures var w' := Next(c, Next(c, w, C.Hello(k, pub)), Bye(k));
            Home(w'.s, key0, After(T.FIRST_IP + k)) && Calm(w'.h, k + 1)
  {
    var a, ip := Peer(k), T.FIRST_IP + k;
    GuestEnters(c, w.s, key0, a, ip, pub);
    GuestNoted(c, w, a, pub, k);
    var w1 := Next(c, w, C.Hello(k, pub));
    GuestLeaves(w1.s, key0, a, ip, SessionKey(c, w.s.keys.priv, pub).value, After(ip));
    LeaveNoted(w1, a, k + 1);
  }

  /** The host alone after k visits. */
  ghost predicate Quiet(w: World, key0: seq<byte>, k: nat) {
    && Home(w.s, key0, if k == 253 then T.FIRST_IP else T.FIRST_IP + k + 1)
    && Calm(w.h, k + 1)
  }

  /** The run of k visits ends so. */
  ghost predicate QuietAfter(c: Suite, priv: seq<byte>, start: int, k: nat, pub0: seq<byte>, pub1: seq<byte>,
      key0: seq<byte>)
  {
    forall w :: w == Run(c, priv, start, Visits(k, pub0, pub1)) ==> Quiet(w, key0, k)
  }

  lemma RunPlus(c: Suite, priv: seq<byte>, start: int, before: seq<Event>, e: Event)
    ensures Run(c, priv, start, before + [e]) == Next(c, Run(c, priv, start, before), e)
  {
    assert (before + [e])[..|before|] == before;
  }

  lemma NoVisits(c: Suite, priv: seq<byte>, start: int, pub0: seq<byte>, pub1: seq<byte>)
    requires Lawful(c) && SessionKey(c, priv, pub0).Some?
    ensures QuietAfter(c, priv, start, 0, pub0, pub1, SessionKey(c, priv, pub0).value)
  {
    HostEnters(c, priv, start, pub0);
    RunPlus(c, priv, start, [], C.Hello(0, pub0));
    assert [] + [C.Hello(0, pub0)] == Visits(0, pub0, pub1);
  }

  lemma VisitNext(c: Suite, priv: seq<byte>, start: int, k: nat, pub0: seq<byte>, pub1: seq<byte>, key0: seq<byte>)
    requires SessionKey(c, priv, pub1).Some? && 1 <= k <= 253
    requires QuietAfter(c, priv, start, k - 1, pub0, pub1, key0)
    ensures QuietAfter(c, priv, start, k, pub0, pub1, key0)
  {
    var before := Visits(k - 1, pub0, pub1);
    var w := Run(c, priv, start, before);
    assert Quiet(w, key0, k - 1);
    G.RunKeyPair(c, priv, start, before);
    RunPlus(c, priv, start, before, C.Hello(k, pub1));
    RunPlus(c, priv, start, before + [C.Hello(k, pub1)], Bye(k));
    Visit(c, w, key0, k, pub1);
  }

  lemma {:induction false} VisitsRun(c: Suite, priv: seq<byte>, start: int, k: nat, pub0: seq<byte>, pub1: seq<byte>,
      key0: seq<byte>)
    requires SessionKey(c, priv, pub1).Some? && k <= 253
    requires QuietAfter(c, priv, start, 0, pub0, pub1, key0)
    ensures QuietAfter(c, priv, start, k, pub0, pub1, key0)
  {
    if k > 0 {
      VisitsRun(c, priv, start, k - 1, pub0, pub1, key0);
      VisitNext(c, priv, start, k, pub0, pub1, key0);
    }
  }

  lemma AllVisits(c: Suite, priv: seq<byte>, start: int, k: nat, pub0: seq<byte>, pub1: seq<byte>)
    requires Lawful(c) && SessionKey(c, priv, pub0).Some? && SessionKey(c, priv, pub1).Some? && k <= 253
    ensures Quiet(Run(c, priv, start, Visits(k, pub0, pub1)), SessionKey(c, priv, pub0).value, k)
  {
    NoVisits(c, priv, start, pub0, pub1);
    VisitsRun(c, priv, start, k, pub0, pub1, SessionKey(c, priv, pub0).value);
  }

  // ---- The guest shares the host's address ----

  /** After 255 allocations, with nothing dropped and nothing in surplus: two active clients
      under one address, and the enclave's key for both is the first one's. */
  ghost predicate Shared(w: World, key0: seq<byte>, key1: seq<byte>) {
    && Calm(w.h, 255)
    && Visited(w.s, key0, Peer(254), T.FIRST_IP, key1, T.FIRST_IP + 1)
  }

  lemma SharedReached(c: Suite, priv: seq<byte>, start: int, pub0: seq<byte>, pub1: seq<byte>)
    requires Lawful(c) && SessionKey(c, priv, pub0).Some? && SessionKey(c, priv, pub1).Some?
    ensures var key0, key1 := SessionKey(c, priv, pub0).value, SessionKey(c, priv, pub1).value;
            Shared(Run(c, priv, start, Wrap(pub0, pub1)), key0, key1)
  {
    var before := Visits(253, pub0, pub1);
    var w := Run(c, priv, start, before);
    AllVisits(c, priv, start, 253, pub0, pub1);
    G.RunKeyPair(c, priv, start, before);
    GuestEnters(c, w.s, SessionKey(c, priv, pub0).value, Peer(254), T.FIRST_IP, pub1);
    GuestNoted(c, w, Peer(254), pub1, 254);
    RunPlus(c, priv, start, before, C.Hello(254, pub1));
  }

  lemma WrapFaithful(pub0: seq<byte>, pub1: seq<byte>)
    ensures G.Faithful(Wrap(pub0, pub1), Two(pub0, pub1))
  {
    VisitsFaithful(253, pub0, pub1);
  }

  /** In that state the enclave finds the host's key for the guest, a packet for the guest goes
      to the host, and the guest's DISCONNECT removes the host and leaves the guest. */
  lemma SharedMixesUp(c: Suite, w: World, key0: seq<byte>, key1: seq<byte>)
    requires Shared(w, key0, key1)
    ensures K.GetKey(w.s.keys, w.s.clients.slots[1].vpnIp) == Some(key0)
    ensures T.SlotOfIp(w.s.clients.slots, w.s.clients.slots[1].vpnIp) == 0
    ensures var t := Leave(w.s, Peer(254)).0.clients; !T.Knows(t, Peer(0)) && T.Knows(t, Peer(254))
  {
    assert K.SlotOf(w.s.keys.slots, T.FIRST_IP) == 0;
    assert T.SlotOfIp(w.s.clients.slots, T.FIRST_IP) == 0;
    assert T.SlotOfAddr(w.s.clients.slots, Peer(254)) == 1;
    var t := Leave(w.s, Peer(254)).0.clients;
    assert t.slots[1] == w.s.clients.slots[1] && !t.slots[0].active;
  }

  /** So a run reaches a state in which a DISCONNECT removes another client and not its
      sender. */
  lemma LeaverStays(c: Suite, priv: seq<byte>, start: int, pub: seq<byte>)
    requires Lawful(c) && SessionKey(c, priv, pub).Some?
    ensures exists events, a, b :: a != b && RemovesOther(c, Run(c, priv, start, events).s, a, b)
  {
    var key := SessionKey(c, priv, pub).value;
    SharedReached(c, priv, start, pub, pub);
    SharedRemoves(c, Run(c, priv, start, Wrap(pub, pub)), key, key);
  }

  /** The DISCONNECT of a removes b and leaves a. */
  ghost predicate RemovesOther(c: Suite, s: State, a: T.Addr, b: T.Addr) {
    var t := Step(c, s, Udp(a, Disconnect, 0, 0)).0.clients;
    T.Knows(s.clients, a) && T.Knows(s.clients, b) && T.Knows(t, a) && !T.Knows(t, b)
  }

  /** And one in which a refused handshake removes another client and leaves the refused peer
      entered. */
  lemma RefusedStays(c: Suite, priv: seq<byte>, start: int, pub: seq<byte>, weak: seq<byte>)
    requires Lawful(c) && SessionKey(c, priv, pub).Some? && SessionKey(c, priv, weak).None?
    ensures exists events, a, b :: a != b && RefusalRemovesOther(c, Run(c, priv, start, events).s, a, b, weak)
  {
    var before := Visits(253, pub, pub);
    var w := Run(c, priv, start, before);
    AllVisits(c, priv, start, 253, pub, pub);
    G.RunKeyPair(c, priv, start, before);
    RefusedAtHome(c, w.s, SessionKey(c, priv, pub).value, weak);
  }

  /** The CONNECT of a removes b and enters a, though it is not answered. */
  ghost predicate RefusalRemovesOther(c: Suite, s: State, a: T.Addr, b: T.Addr, weak: seq<byte>) {
    var (s', out) := Step(c, s, Udp(a, ConnectReq(weak), 0, 1));
    out.Silent? && T.Knows(s.clients, b) && T.Knows(s'.clients, a) && !T.Knows(s'.clients, b)
  }

  lemma RefusedAtHome(c: Suite, s: State, key0: seq<byte>, weak: seq<byte>)
    requires Home(s, key0, T.FIRST_IP) && SessionKey(c, s.keys.priv, weak).None?
    ensures RefusalRemovesOther(c, s, Peer(254), Peer(0), weak)
  {
    assert !s.clients.slots[1].active;
    assert T.FreeSlot(s.clients.slots) == 1;
    var t := T.AddClient(s.clients, Peer(254), 0, 1).0;
    assert t.slots[0] == s.clients.slots[0] && t.slots[1].addr == Peer(254);
    assert T.SlotOfIp(t.slots, T.FIRST_IP) == 0;
    var t' := T.RemoveClient(t, T.FIRST_IP);
    assert t'.slots[1] == t.slots[1] && !t'.slots[0].active;
  }

  lemma SharedRemoves(c: Suite, w: World, key0: seq<byte>, key1: seq<byte>)
    requires Shared(w, key0, key1)
    ensures RemovesOther(c, w.s, Peer(254), Peer(0))
  {
    assert w.s.clients.slots[0].addr == Peer(0) && w.s.clients.slots[1].addr == Peer(254);
    SharedMixesUp(c, w, key0, key1);
  }

  // ---- 254 is exact ----

  /** The run keeps to n allocations and i is a client at its end. */
  ghost predicate Within(w: World, n: nat, i: nat) {
    w.h.issued <= n && i < |w.s.clients.slots| && w.s.clients.slots[i].active
  }

  /** If both are clients, i and j share their VPN address exactly if they are the same peer. */
  ghost predicate OneToOne(c: Suite, priv: seq<byte>, start: int, events: seq<Event>, n: nat, i: nat, j: nat) {
    var w := Run(c, priv, start, events);
    Within(w, n, i) && Within(w, n, j) ==>
      var t := w.s.clients;
      t.slots[i].vpnIp == t.slots[j].vpnIp <==> t.slots[i].addr == t.slots[j].addr
  }

  /** Addresses are one to one over all runs of up to n allocations if and only if n is at
      most 254. */
  lemma OneToOneExact(c: Suite, priv: seq<byte>, start: int, pub: seq<byte>, n: nat)
    requires Lawful(c) && SessionKey(c, priv, pub).Some?
    ensures (forall events, i: nat, j: nat :: OneToOne(c, priv, start, events, n, i, j)) <==> n <= A.RANGE
  {
    if n <= A.RANGE {
      forall events, i: nat, j: nat ensures OneToOne(c, priv, start, events, n, i, j) {
        var w := Run(c, priv, start, events);
        if Within(w, n, i) && Within(w, n, j) {
          A.OneToOne(c, priv, start, events, i, j);
        }
      }
    } else {
      SharedReached(c, priv, start, pub, pub);
      assert !OneToOne(c, priv, start, Wrap(pub, pub), n, 0, 1);
    }
  }

  ghost function PrivOf(priv0: seq<byte>, priv1: seq<byte>): T.Addr -> seq<byte> {
    (a: T.Addr) => if a == Peer(0) then priv0 else priv1
  }

  lemma WrapPublished(c: Suite, priv0: seq<byte>, priv1: seq<byte>)
    ensures G.Faithful(Wrap(c.publicOf(priv0), c.publicOf(priv1)), G.Published(c, PrivOf(priv0, priv1)))
  {
    WrapFaithful(c.publicOf(priv0), c.publicOf(priv1));
  }

  /** With two key pairs that the server tells apart, the guest and the enclave disagree. */
  lemma GuestDisagrees(c: Suite, priv: seq<byte>, start: int, priv0: seq<byte>, priv1: seq<byte>)
    requires Lawful(c) && Distinct(c, priv, priv0, priv1)
    ensures var w := Run(c, priv, start, Wrap(c.publicOf(priv0), c.publicOf(priv1)));
            && Calm(w.h, 255) && Within(w, 255, 1)
            && !G.Agrees(c, w.s, PrivOf(priv0, priv1), 1)
  {
    var events := Wrap(c.publicOf(priv0), c.publicOf(priv1));
    var w := Run(c, priv, start, events);
    var key0, key1 := SessionKey(c, priv, c.publicOf(priv0)).value, SessionKey(c, priv, c.publicOf(priv1)).value;
    SharedReached(c, priv, start, c.publicOf(priv0), c.publicOf(priv1));
    SharedMixesUp(c, w, key0, key1);
    G.RunKeyPair(c, priv, start, events);
    KeysAgree(c, priv, priv1);
  }

  ghost predicate Distinct(c: Suite, priv: seq<byte>, priv0: seq<byte>, priv1: seq<byte>) {
    var key0, key1 := SessionKey(c, priv, c.publicOf(priv0)), SessionKey(c, priv, c.publicOf(priv1));
    key0.Some? && key1.Some? && key0 != key1
  }

  /** Nothing lost and nothing in surplus, the case in which agreement should be plain. */
  ghost predicate Plain(h: History) {
    h.dropped == multiset{} && L.Surplus(h) == multiset{}
  }

  /** In a run of up to n allocations without drops and surplus, client i agrees. */
  ghost predicate AgreesIn(c: Suite, priv: seq<byte>, start: int, events: seq<Event>,
      privOf: T.Addr -> seq<byte>, n: nat, i: nat)
  {
    var w := Run(c, priv, start, events);
    G.Faithful(events, G.Published(c, privOf)) && Plain(w.h) && Within(w, n, i) ==> G.Agrees(c, w.s, privOf, i)
  }

  /** Enclave and clients agree over all runs of up to n allocations, even if only those in
      which no key was dropped and none is in surplus, if and only if n is at most 254. */
  lemma AgreementExact(c: Suite, priv: seq<byte>, start: int, priv0: seq<byte>, priv1: seq<byte>, n: nat)
    requires Lawful(c) && Distinct(c, priv, priv0, priv1)
    ensures (forall events, privOf, i: nat :: AgreesIn(c, priv, start, events, privOf, n, i)) <==> n <= A.RANGE
  {
    if n <= A.RANGE {
      forall events, privOf, i: nat ensures AgreesIn(c, priv, start, events, privOf, n, i) {
        var w := Run(c, priv, start, events);
        if G.Faithful(events, G.Published(c, privOf)) && Plain(w.h) && Within(w, n, i) {
          G.KeyAgreement(c, priv, start, events, privOf, i);
        }
      }
    } else {
      GuestDisagrees(c, priv, start, priv0, priv1);
      WrapPublished(c, priv0, priv1);
      assert !AgreesIn(c, priv, start, Wrap(c.publicOf(priv0), c.publicOf(priv1)), PrivOf(priv0, priv1), n, 1);
    }
  }

  /** In a run of up to n allocations without drops and surplus, every packet of up to 2004
      bytes crosses the tunnel between client i and the server. */
  ghost predicate CrossesIn(c: Suite, priv: seq<byte>, start: int, events: seq<Event>,
      privOf: T.Addr -> seq<byte>, n: nat, i: nat, p: seq<byte>, nonce: seq<byte>, stale: seq<byte>)
    requires |stale| == UDP_BUFFER
  {
    var w := Run(c, priv, start, events);
    (&& G.Faithful(events, G.Published(c, privOf)) && Plain(w.h) && Within(w, n, i) && |p| <= U.LARGEST) ==>
      var key := SessionKey(c, privOf(w.s.clients.slots[i].addr), c.publicOf(priv));
      key.Some? && U.Crosses(c, w.s, i, key.value, p, nonce, true, 0, 0, stale, 0, 0)
  }

  /** An IPv4 header for the first address. */
  function ForHost(): (p: seq<byte>)
    ensures |p| == 20 && p[0] / 16 == 4 && p[16..20] == ToBe(T.FIRST_IP, 4)
  {
    [0x45] + Zeros(15) + ToBe(T.FIRST_IP, 4)
  }

  /** A packet to the guest's address goes to the host. */
  lemma GuestMissed(c: Suite, w: World, key0: seq<byte>, key1: seq<byte>, key: seq<byte>,
      nonce: seq<byte>, stale: seq<byte>)
    requires Lawful(c) && Shared(w, key0, key1) && |nonce| == NONCE_SIZE && |stale| == UDP_BUFFER
    ensures !U.Crosses(c, w.s, 1, key, ForHost(), nonce, true, 0, 0, stale, 0, 0)
  {
    var p := ForHost();
    SharedMixesUp(c, w, key0, key1);
    Be32(T.FIRST_IP);
    assert Route(w.s.clients, p) == 0;
    assert Step(c, w.s, TunRead(p, nonce, true, 0)).1.to == Peer(0);
  }

  /** Packets cross the tunnel over all runs of up to n allocations if and only if n is at most
      254. */
  lemma TunnelExact(c: Suite, priv: seq<byte>, start: int, priv0: seq<byte>, n: nat, nonce: seq<byte>, stale: seq<byte>)
    requires Lawful(c) && SessionKey(c, priv, c.publicOf(priv0)).Some?
    requires |nonce| == NONCE_SIZE && |stale| == UDP_BUFFER
    ensures (forall events, privOf, i: nat, p :: CrossesIn(c, priv, start, events, privOf, n, i, p, nonce, stale))
            <==> n <= A.RANGE
  {
    if n <= A.RANGE {
      forall events, privOf, i: nat, p ensures CrossesIn(c, priv, start, events, privOf, n, i, p, nonce, stale) {
        PlainCrosses(c, priv, start, events, privOf, n, i, p, nonce, stale);
      }
    } else {
      var pub := c.publicOf(priv0);
      var w := Run(c, priv, start, Wrap(pub, pub));
      var key := SessionKey(c, priv, pub).value;
      SharedReached(c, priv, start, pub, pub);
      WrapPublished(c, priv0, priv0);
      GuestMissed(c, w, key, key, key, nonce, stale);
      KeysAgree(c, priv, priv0);
      assert !CrossesIn(c, priv, start, Wrap(pub, pub), PrivOf(priv0, priv0), n, 1, ForHost(), nonce, stale);
    }
  }

  lemma PlainCrosses(c: Suite, priv: seq<byte>, start: int, events: seq<Event>,
      privOf: T.Addr -> seq<byte>, n: nat, i: nat, p: seq<byte>, nonce: seq<byte>, stale: seq<byte>)
    requires Lawful(c) && n <= A.RANGE && |nonce| == NONCE_SIZE && |stale| == UDP_BUFFER
    ensures CrossesIn(c, priv, start, events, privOf, n, i, p, nonce, stale)
  {
    var w := Run(c, priv, start, events);
    if G.Faithful(events, G.Published(c, privOf)) && Plain(w.h) && Within(w, n, i) && |p| <= U.LARGEST {
      U.TunnelRoundTrip(c, priv, start, events, privOf, i, p, nonce, true, 0, 0, stale, 0, 0);
    }
  }

  // ---- The last address ----

  /** The address past the documented range is handed out: the 254th allocation, which is
      10.8.0.255. */
  lemma LastAddressGiven(c: Suite, priv: seq<byte>, start: int, pub: seq<byte>)
    requires Lawful(c) && SessionKey(c, priv, pub).Some?
    ensures exists events, a :: GivesLast(Run(c, priv, start, events).s.clients, a)
  {
    var events := C.Repeat(253, 0, pub);
    C.RepeatShape(c, priv, start, 253, 0, pub);
    L.RunBalances(c, priv, start, events);
    A.RunNumbered(c, priv, start, events);
    ShapeGivesLast(Run(c, priv, start, events));
  }

  /** A peer not entered so far would be given 10.8.0.255. */
  ghost predicate GivesLast(t: T.Table, a: T.Addr) {
    !T.Knows(t, a) && T.AddClient(t, a, 0, 1).1 == 0x0a0800ff
  }

  lemma ShapeGivesLast(w: World)
    requires C.Shape(w, 253, 0) && T.Valid(w.s.clients) && A.Numbered(w.s.clients, w.h)
    ensures GivesLast(w.s.clients, Peer(253))
  {
    assert !T.Knows(w.s.clients, T.Addr(253, 0));
    T.RoomIff(w.s.clients);
  }
}
