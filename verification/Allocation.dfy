/** Which VPN address each client gets, over every run. */
module Allocation {
  import opened Bytes
  import opened Crypto
  import T = ClientTable
  import opened Session
  import L = Ledger

  const RANGE: nat := 254

  /** The table right after any new client was entered, before anyone is removed. */
  ghost function Entered(s: State, e: Event): T.Table {
    match e
    case Udp(a, ConnectReq(_), now, id) => T.AddClient(s.clients, a, now, id).0
    case _ => s.clients
  }

  /** Apart from add_client, a step only refreshes or deactivates entries. */
  lemma StepThins(c: Suite, s: State, e: Event)
    ensures T.Thins(Entered(s, e), Step(c, s, e).0.clients)
  {
    match e
    case Udp(a, ConnectReq(_), _, _) =>
    case Udp(a, Data(_), _, _) =>
    case Udp(a, Ping, _, _) =>
    case Udp(a, Disconnect, _, _) =>
    case Udp(_, Other, _, _) =>
    case TunRead(p, nonce, sent, now) => ForwardThins(c, s, p, nonce, sent, now);
    case Idle(_) =>
  }

  lemma ForwardThins(c: Suite, s: State, p: seq<byte>, nonce: seq<byte>, sent: bool, now: int)
    ensures T.Thins(s.clients, Forward(c, s, p, nonce, sent, now).0.clients)
  {
  }

  /** Every active slot holds the address computed from its allocation number. */
  ghost predicate Numbered(t: T.Table, h: History) {
    && |h.serial| == |t.slots|
    && T.NextIp(t) == T.FIRST_IP + h.issued % RANGE
    && (forall i :: 0 <= i < |t.slots| && t.slots[i].active ==>
          h.serial[i] < h.issued && t.slots[i].vpnIp == T.FIRST_IP + h.serial[i] % RANGE)
    && (forall i, j :: 0 <= i < j < |t.slots| && t.slots[i].active && t.slots[j].active ==>
          h.serial[i] != h.serial[j])
  }

  /** A new entry under the next address, numbered with the next number. */
  lemma AddNumbered(t: T.Table, h: History, h': History, free: nat, e: T.Entry)
    requires Numbered(t, h) && free < |t.slots| && e.vpnIp == T.NextIp(t)
    requires h'.issued == h.issued + 1 && h'.serial == h.serial[free := h.issued]
    ensures Numbered(T.Table(t.slots[free := e], t.count + 1, T.NextIp(t) + 1), h')
  {
    Wraps(h.issued);
  }

  lemma ConnectNumbered(c: Suite, w: World, a: T.Addr, pub: seq<byte>, now: int, id: nat)
    requires T.Valid(w.s.clients) && Numbered(w.s.clients, w.h)
    ensures Numbered(T.AddClient(w.s.clients, a, now, id).0, NoteConnect(c, w.h, w.s, a, pub, now, id))
  {
    var t, h' := w.s.clients, NoteConnect(c, w.h, w.s, a, pub, now, id);
    if t.count < T.MAX_CLIENTS && !T.Knows(t, a) {
      T.RoomIff(t);
      AddNumbered(t, w.h, h', T.FreeSlot(t.slots), T.Entry(T.NextIp(t), a, now, id, true));
    }
  }

  lemma OthersNumber(c: Suite, w: World, e: Event)
    requires e.Udp? ==> !e.packet.ConnectReq?
    ensures Next(c, w, e).h.issued == w.h.issued && Next(c, w, e).h.serial == w.h.serial
  {
    match e
    case Udp(_, Data(_), _, _) =>
    case Udp(_, Ping, _, _) =>
    case Udp(_, Disconnect, _, _) =>
    case Udp(_, Other, _, _) =>
    case TunRead(_, _, _, _) =>
    case Idle(_) =>
  }

  lemma EnteredNumbered(c: Suite, w: World, e: Event)
    requires T.Valid(w.s.clients) && Numbered(w.s.clients, w.h)
    ensures Numbered(Entered(w.s, e), Next(c, w, e).h)
  {
    if e.Udp? && e.packet.ConnectReq? {
      ConnectNumbered(c, w, e.from, e.packet.pub, e.now, e.sessionId);
    } else {
      OthersNumber(c, w, e);
    }
  }

  lemma Wraps(n: nat)
    ensures (n + 1) % RANGE == if n % RANGE == RANGE - 1 then 0 else n % RANGE + 1
  {
  }

  lemma {:induction false} RunNumbered(c: Suite, priv: seq<byte>, start: int, events: seq<Event>)
    requires Lawful(c)
    ensures Numbered(Run(c, priv, start, events).s.clients, Run(c, priv, start, events).h)
  {
    if events != [] {
      var before, e := events[..|events| - 1], events[|events| - 1];
      RunNumbered(c, priv, start, before);
      L.RunBalances(c, priv, start, before);
      var w := Run(c, priv, start, before);
      EnteredNumbered(c, w, e);
      StepThins(c, w.s, e);
    }
  }

  /** The k-th fresh allocation of any run, counting from 0, is FIRST_IP + k mod 254. */
  lemma FreshAddress(c: Suite, priv: seq<byte>, start: int, events: seq<Event>, a: T.Addr, now: int, id: nat)
    requires Lawful(c)
    ensures var w := Run(c, priv, start, events);
            var (t, ip) := T.AddClient(w.s.clients, a, now, id);
            !T.Knows(w.s.clients, a) && ip != 0 ==> ip == 0x0a080002 + w.h.issued % 254
  {
    RunNumbered(c, priv, start, events);
  }

  /** The documentation ends the client range at 10.8.0.254. The code keeps to it except for
      the last address of every cycle, which is 10.8.0.255. */
  lemma DocumentedRangeIff(c: Suite, priv: seq<byte>, start: int, events: seq<Event>, a: T.Addr, now: int, id: nat)
    requires Lawful(c)
    requires var t := Run(c, priv, start, events).s.clients; !T.Knows(t, a) && T.AddClient(t, a, now, id).1 != 0
    ensures var w := Run(c, priv, start, events);
            0x0a080002 <= T.AddClient(w.s.clients, a, now, id).1 <= 0x0a0800fe <==> w.h.issued % 254 != 253
  {
    FreshAddress(c, priv, start, events, a, now, id);
  }

  /** Two active clients share an address exactly when their allocation numbers, which
      differ, agree modulo 254. */
  lemma SharedIff(c: Suite, priv: seq<byte>, start: int, events: seq<Event>, i: nat, j: nat)
    requires Lawful(c) && i < j < T.MAX_CLIENTS
    requires var t := Run(c, priv, start, events).s.clients;
             |t.slots| == T.MAX_CLIENTS && t.slots[i].active && t.slots[j].active
    ensures var w := Run(c, priv, start, events);
            |w.h.serial| == T.MAX_CLIENTS && SharedByNumber(w.s.clients, w.h, i, j)
  {
    RunNumbered(c, priv, start, events);
    var w := Run(c, priv, start, events);
    TableSharedIff(w.s.clients, w.h, i, j);
  }

  ghost predicate SharedByNumber(t: T.Table, h: History, i: nat, j: nat)
    requires i < |t.slots| == |h.serial| && j < |t.slots|
  {
    && h.serial[i] != h.serial[j]
    && (t.slots[i].vpnIp == t.slots[j].vpnIp <==> (h.serial[i] - h.serial[j]) % RANGE == 0)
  }

  lemma TableSharedIff(t: T.Table, h: History, i: nat, j: nat)
    requires Numbered(t, h) && i < j < |t.slots| && t.slots[i].active && t.slots[j].active
    ensures SharedByNumber(t, h, i, j)
  {
    SameResidue(h.serial[i], h.serial[j]);
  }

  lemma SameResidue(m: nat, n: nat)
    ensures m % RANGE == n % RANGE <==> (m - n) % RANGE == 0
  {
  }

  lemma Unwrapped(t: T.Table, h: History, i: nat, j: nat)
    requires Numbered(t, h) && h.issued <= RANGE
    requires i < j < |t.slots| && t.slots[i].active && t.slots[j].active
    ensures t.slots[i].vpnIp != t.slots[j].vpnIp
  {
    var m, n := h.serial[i], h.serial[j];
    assert m != n && m % RANGE == m && n % RANGE == n;
  }

  /** Within 254 fresh allocations the table is one-to-one between the active peers'
      addresses and their VPN addresses. */
  lemma OneToOne(c: Suite, priv: seq<byte>, start: int, events: seq<Event>, i: nat, j: nat)
    requires Lawful(c) && Run(c, priv, start, events).h.issued <= RANGE
    requires var t := Run(c, priv, start, events).s.clients;
             i < |t.slots| && j < |t.slots| && t.slots[i].active && t.slots[j].active
    ensures var t := Run(c, priv, start, events).s.clients;
            t.slots[i].vpnIp == t.slots[j].vpnIp <==> t.slots[i].addr == t.slots[j].addr
  {
    RunNumbered(c, priv, start, events);
    L.RunBalances(c, priv, start, events);
    var w := Run(c, priv, start, events);
    TableOneToOne(w.s.clients, w.h, i, j);
  }

  lemma TableOneToOne(t: T.Table, h: History, i: nat, j: nat)
    requires T.Valid(t) && Numbered(t, h) && h.issued <= RANGE
    requires i < |t.slots| && j < |t.slots| && t.slots[i].active && t.slots[j].active
    ensures t.slots[i].vpnIp == t.slots[j].vpnIp <==> t.slots[i].addr == t.slots[j].addr
  {
    if i < j {
      Unwrapped(t, h, i, j);
    } else if j < i {
      Unwrapped(t, h, j, i);
    }
  }
}
