/** How much surplus the 256 key slots can take: two always, three not. */
module Capacity {
  import opened Bytes
  import opened Crypto
  import K = KeyTable
  import T = ClientTable
  import opened Session
  import L = Ledger
  import A = Allocation
  import G = Agreement

  /** A surplus of at most two never lets a known client's traffic miss its key. */
  lemma TwoAreServed(c: Suite, priv: seq<byte>, start: int, events: seq<Event>, e: Event)
    requires Lawful(c) && |L.Surplus(Run(c, priv, start, events).h)| <= 2
    ensures !Step(c, Run(c, priv, start, events).s, e).1.KeyNotFound?
  {
    L.SmallSurplusIsRoomy(c, priv, start, events);
    L.KeyAlwaysFound(c, priv, start, events, e);
  }

  function Hello(i: nat, pub: seq<byte>): Event {
    Udp(T.Addr(i, 0), ConnectReq(pub), 0, 1)
  }

  /** n peers connect one after the other. */
  function Fill(n: nat, pub: seq<byte>): seq<Event> {
    if n == 0 then [] else Fill(n - 1, pub) + [Hello(n - 1, pub)]
  }

  /** Then the first of them connects m more times. */
  function Repeat(n: nat, m: nat, pub: seq<byte>): seq<Event> {
    if m == 0 then Fill(n, pub) else Repeat(n, m - 1, pub) + [Hello(0, pub)]
  }

  lemma {:induction false} RepeatFaithful(n: nat, m: nat, pub: seq<byte>)
    ensures G.Faithful(Repeat(n, m, pub), _ => pub)
  {
    if m > 0 {
      RepeatFaithful(n, m - 1, pub);
    } else if n > 0 {
      RepeatFaithful(n - 1, 0, pub);
    }
  }

  /** n clients, the peers 0 to n - 1; n + m keys; a surplus of m and nothing dropped. */
  ghost predicate Shape(w: World, n: nat, m: nat) {
    && (forall j: nat :: T.Knows(w.s.clients, T.Addr(j, 0)) <==> j < n)
    && w.s.clients.count == n && w.h.issued == n
    && |L.Surplus(w.h)| == m && w.h.dropped == multiset{}
  }

  /** What an accepted CONNECT with a successful handshake records. */
  lemma HelloNote(c: Suite, w: World, i: nat, pub: seq<byte>)
    requires Lawful(c) && L.Balanced(w) && w.s.clients.count < T.MAX_CLIENTS
    requires SessionKey(c, w.s.keys.priv, pub).Some?
    ensures var h, a := NoteConnect(c, w.h, w.s, T.Addr(i, 0), pub, 0, 1), T.Addr(i, 0);
            var known, full := T.Knows(w.s.clients, a), K.Full(w.s.keys);
            && h.issued == w.h.issued + (if known then 0 else 1)
            && |L.Surplus(h)| == |L.Surplus(w.h)| + (if known && !full then 1 else 0)
            && |h.dropped| == |w.h.dropped| + (if !known && full then 1 else 0)
  {
    T.AddClientKeeps(w.s.clients, T.Addr(i, 0), 0, 1);
  }

  lemma HelloShape(c: Suite, w: World, n: nat, m: nat, i: nat, pub: seq<byte>)
    requires Lawful(c) && L.Balanced(w) && Shape(w, n, m) && i <= n < T.MAX_CLIENTS
    requires SessionKey(c, w.s.keys.priv, pub).Some? && !K.Full(w.s.keys)
    ensures Shape(Next(c, w, Hello(i, pub)), if i == n then n + 1 else n, if i == n then m else m + 1)
  {
    HelloNote(c, w, i, pub);
    T.AddClientKeeps(w.s.clients, T.Addr(i, 0), 0, 1);
    var t := T.AddClient(w.s.clients, T.Addr(i, 0), 0, 1).0;
    assert Next(c, w, Hello(i, pub)).s.clients == t;
    forall j: nat ensures T.Knows(t, T.Addr(j, 0)) <==> j < n || j == i {
      T.AddClientKnows(w.s.clients, T.Addr(i, 0), 0, 1, T.Addr(j, 0));
    }
  }

  lemma {:induction false} RepeatShape(c: Suite, priv: seq<byte>, start: int, n: nat, m: nat, pub: seq<byte>)
    requires Lawful(c) && SessionKey(c, priv, pub).Some? && n <= 253 && m <= 3 && (m > 0 ==> n > 0)
    ensures Shape(Run(c, priv, start, Repeat(n, m, pub)), n, m)
    decreases n + m
  {
    var events := Repeat(n, m, pub);
    if n + m > 0 {
      var i := if m > 0 then 0 else n - 1;
      var before := if m > 0 then Repeat(n, m - 1, pub) else Repeat(n - 1, 0, pub);
      assert events == before + [Hello(i, pub)];
      assert events[..|events| - 1] == before;
      var w := Run(c, priv, start, before);
      RepeatShape(c, priv, start, if m > 0 then n else n - 1, if m > 0 then m - 1 else 0, pub);
      L.Conservation(c, priv, start, before);
      L.RunBalances(c, priv, start, before);
      G.RunKeyPair(c, priv, start, before);
      K.FullIff(w.s.keys);
      HelloShape(c, w, if m > 0 then n else n - 1, if m > 0 then m - 1 else 0, i, pub);
    } else {
      assert Run(c, priv, start, events) == Begin(c, priv, start);
    }
  }

  /** A CONNECT accepted while the key table is full is answered, and the newcomer's
      traffic then finds no key. */
  lemma Stranded(c: Suite, w: World, i: nat, pub: seq<byte>)
    requires L.Balanced(w) && w.s.clients.count < T.MAX_CLIENTS && !T.Knows(w.s.clients, T.Addr(i, 0))
    requires SessionKey(c, w.s.keys.priv, pub).Some? && K.Full(w.s.keys)
    requires K.GetKey(w.s.keys, T.NextIp(w.s.clients)) == None
    ensures var (s, out) := Connect(c, w.s, T.Addr(i, 0), pub, 0, 1);
            && out.ConnectResp? && out.to == T.Addr(i, 0)
            && forall body, now :: Receive(c, s, T.Addr(i, 0), body, now).1.KeyNotFound? <==> |body| <= 4096
  {
    T.AddClientKeeps(w.s.clients, T.Addr(i, 0), 0, 1);
  }

  /** The last event of the run is a CONNECT of the peer, answered, and yet its DATA finds no
      key. */
  ghost predicate Strands(c: Suite, priv: seq<byte>, start: int, events: seq<Event>, a: T.Addr) {
    && events != [] && LastOutput(c, priv, start, events).ConnectResp? && LastOutput(c, priv, start, events).to == a
    && forall body, now, id ::
         Step(c, Run(c, priv, start, events).s, Udp(a, Data(body), now, id)).1.KeyNotFound? <==> |body| <= 4096
  }

  /** A surplus of three can fill the key table and strand the next newcomer. */
  lemma ThreeAreNot(c: Suite, priv: seq<byte>, start: int, pub: seq<byte>)
    requires Lawful(c) && SessionKey(c, priv, pub).Some?
    ensures exists events, a :: |L.Surplus(Run(c, priv, start, events).h)| == 3 && Strands(c, priv, start, events, a)
  {
    FullTable(c, priv, start, pub);
    NewcomerStranded(c, priv, start, Repeat(253, 3, pub), 253, pub);
  }

  lemma NewcomerStranded(c: Suite, priv: seq<byte>, start: int, before: seq<Event>, i: nat, pub: seq<byte>)
    requires Lawful(c) && Crammed(Run(c, priv, start, before), priv, T.Addr(i, 0)) && SessionKey(c, priv, pub).Some?
    ensures var events := before + [Hello(i, pub)];
            |L.Surplus(Run(c, priv, start, events).h)| == 3 && Strands(c, priv, start, events, T.Addr(i, 0))
  {
    var events, w := before + [Hello(i, pub)], Run(c, priv, start, before);
    assert events[..|events| - 1] == before;
    Stranded(c, w, i, pub);
    HelloNote(c, w, i, pub);
  }

  /** A full key table, none of whose keys is for the next address, with a surplus of three and
      room for one more client. */
  ghost predicate Crammed(w: World, priv: seq<byte>, a: T.Addr) {
    && L.Balanced(w) && w.s.clients.count == 253 && !T.Knows(w.s.clients, a)
    && w.s.keys.priv == priv && K.Full(w.s.keys) && |L.Surplus(w.h)| == 3
    && K.GetKey(w.s.keys, T.NextIp(w.s.clients)) == None
  }

  /** 253 clients and three repeats bring it about. */
  lemma FullTable(c: Suite, priv: seq<byte>, start: int, pub: seq<byte>)
    requires Lawful(c) && SessionKey(c, priv, pub).Some?
    ensures Crammed(Run(c, priv, start, Repeat(253, 3, pub)), priv, T.Addr(253, 0))
  {
    var before := Repeat(253, 3, pub);
    RepeatShape(c, priv, start, 253, 3, pub);
    RepeatFaithful(253, 3, pub);
    L.Conservation(c, priv, start, before);
    L.RunBalances(c, priv, start, before);
    G.RunKeyPair(c, priv, start, before);
    K.FullIff(Run(c, priv, start, before).s.keys);
    Unserved(c, priv, start, before, pub);
  }

  /** No key is stored yet under an address that was never handed out. */
  lemma Unserved(c: Suite, priv: seq<byte>, start: int, events: seq<Event>, pub: seq<byte>)
    requires Lawful(c) && G.Faithful(events, _ => pub)
    requires Run(c, priv, start, events).h.issued == 253
    ensures var s := Run(c, priv, start, events).s; K.GetKey(s.keys, T.NextIp(s.clients)) == None
  {
    G.RunOwned(c, priv, start, events, _ => pub);
    A.RunNumbered(c, priv, start, events);
  }
}
