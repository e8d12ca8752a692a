/** Client and server together: a client that keeps pinging is never evicted. */
module Liveness {
  import opened Bytes
  import opened Crypto
  import T = ClientTable
  import opened Session
  import L = Ledger
  import A = Allocation
  import G = Agreement
  import KA = Keepalive

  // ---- One step ----

  /** The peer is entered and was last seen at time x or later. */
  ghost predicate SeenSince(t: T.Table, a: T.Addr, x: int) {
    T.Knows(t, a) && x <= t.slots[T.SlotOfAddr(t.slots, a)].lastSeen
  }

  /** Entry i of t, if still active in t', is the same client, refreshed at most. */
  ghost predicate Follows(t: T.Table, t': T.Table, i: nat, now: int) {
    && i < |t.slots| == |t'.slots|
    && (t'.slots[i].active ==>
          && t'.slots[i].addr == t.slots[i].addr
          && (t'.slots[i].lastSeen == t.slots[i].lastSeen || t'.slots[i].lastSeen == now))
  }

  /** No step touches an active entry but to refresh or deactivate it. */
  lemma StepFollows(c: Suite, s: State, e: Event, i: nat)
    requires i < |s.clients.slots| && s.clients.slots[i].active
    ensures Follows(s.clients, Step(c, s, e).0.clients, i, e.now)
  {
    match e
    case Udp(b, ConnectReq(pub), now, id) => ConnectFollows(c, s, i, b, pub, now, id);
    case Udp(_, Data(_), _, _) =>
    case Udp(_, Ping, _, _) =>
    case Udp(_, Disconnect, _, _) =>
    case Udp(_, Other, _, _) =>
    case TunRead(_, _, _, _) =>
    case Idle(_) =>
  }

  lemma ConnectFollows(c: Suite, s: State, i: nat, b: T.Addr, pub: seq<byte>, now: int, id: nat)
    requires i < |s.clients.slots| && s.clients.slots[i].active
    ensures Follows(s.clients, Connect(c, s, b, pub, now, id).0.clients, i, now)
  {
    var t := T.AddClient(s.clients, b, now, id).0;
    assert Follows(s.clients, t, i, now);
  }

  /** No step enters a peer but its own CONNECT. */
  lemma NotEntered(c: Suite, s: State, e: Event, a: T.Addr, i: nat)
    requires e.Udp? && e.from == a ==> !e.packet.ConnectReq?
    requires T.Valid(s.clients) && i < |Step(c, s, e).0.clients.slots|
    requires Step(c, s, e).0.clients.slots[i].active && Step(c, s, e).0.clients.slots[i].addr == a
    ensures i < |s.clients.slots| && s.clients.slots[i].active && s.clients.slots[i].addr == a
  {
    A.StepThins(c, s, e);
    assert A.Entered(s, e).slots[i].active && A.Entered(s, e).slots[i].addr == a;
  }

  /** Whatever the event, the peer is gone after it or seen as recently as before, and
      seen now if the event is its PING. */
  lemma StepSees(c: Suite, w: World, e: Event, a: T.Addr, x: int)
    requires Lawful(c) && L.Balanced(w) && x <= e.now
    requires T.Knows(w.s.clients, a) ==> SeenSince(w.s.clients, a, x)
    requires e.Udp? && e.from == a ==> !e.packet.ConnectReq?
    ensures var t := Step(c, w.s, e).0.clients;
            T.Knows(t, a) ==> T.Knows(w.s.clients, a) && SeenSince(t, a, if IsPing(e, a) then e.now else x)
  {
    var t := Step(c, w.s, e).0.clients;
    var i := T.SlotOfAddr(t.slots, a);
    if i < |t.slots| {
      NotEntered(c, w.s, e, a, i);
      T.KnownSlot(w.s.clients, i);
      StepFollows(c, w.s, e, i);
    }
  }

  /** An idle step keeps a client seen within the last 300 seconds. */
  lemma IdleKeeps(c: Suite, w: World, a: T.Addr, now: int)
    requires Lawful(c) && L.Balanced(w) && SeenSince(w.s.clients, a, now - T.CLIENT_TIMEOUT)
    ensures T.Knows(Step(c, w.s, Idle(now)).0.clients, a)
  {
    var t, i := Step(c, w.s, Idle(now)).0.clients, T.SlotOfAddr(w.s.clients.slots, a);
    assert t.slots[i].active && t.slots[i].addr == a by {
      T.SweepExact(w.s.clients, now);
    }
    assert T.Valid(t) by {
      L.NextBalances(c, w, Idle(now));
    }
    T.KnownSlot(t, i);
  }

  // ---- Steps that remove by VPN address ----

  /** No other active entry of the table holds the peer's VPN address. */
  ghost predicate Alone(t: T.Table, a: T.Addr) {
    T.Knows(t, a) ==>
      var i := T.SlotOfAddr(t.slots, a);
      forall j :: 0 <= j < |t.slots| && j != i && t.slots[j].active ==> t.slots[j].vpnIp != t.slots[i].vpnIp
  }

  lemma AddStays(t: T.Table, i: nat, b: T.Addr, now: int, id: nat)
    requires i < |t.slots| && t.slots[i].active && t.slots[i].addr != b
    ensures var t' := T.AddClient(t, b, now, id).0; |t'.slots| == |t.slots| && t'.slots[i] == t.slots[i]
  {
  }

  lemma RemoveStays(t: T.Table, i: nat, ip: nat)
    requires i < |t.slots| && t.slots[i].active && t.slots[i].vpnIp != ip
    ensures var t' := T.RemoveClient(t, ip); |t'.slots| == |t.slots| && t'.slots[i] == t.slots[i]
  {
  }

  /** Another peer's CONNECT, rolled back or not, leaves an entry alone whose VPN address it
      does not share. */
  lemma ConnectStays(c: Suite, s: State, i: nat, b: T.Addr, pub: seq<byte>, now: int, id: nat)
    requires T.Valid(s.clients) && i < |s.clients.slots|
    requires s.clients.slots[i].active && s.clients.slots[i].addr != b
    requires Alone(T.AddClient(s.clients, b, now, id).0, s.clients.slots[i].addr)
    ensures var t := Connect(c, s, b, pub, now, id).0.clients;
            |t.slots| == |s.clients.slots| && t.slots[i] == s.clients.slots[i]
  {
    var (t, ip) := T.AddClient(s.clients, b, now, id);
    AddStays(s.clients, i, b, now, id);
    T.AddClientKeeps(s.clients, b, now, id);
    if ip != 0 {
      T.KnownSlot(t, i);
      RemoveStays(t, i, ip);
    }
  }

  /** So does another peer's DISCONNECT. */
  lemma LeaveStays(s: State, i: nat, b: T.Addr)
    requires T.Valid(s.clients) && i < |s.clients.slots|
    requires s.clients.slots[i].active && s.clients.slots[i].addr != b
    requires Alone(s.clients, s.clients.slots[i].addr)
    ensures var t := Leave(s, b).0.clients;
            |t.slots| == |s.clients.slots| && t.slots[i] == s.clients.slots[i]
  {
    T.KnownSlot(s.clients, i);
    var j := T.SlotOfAddr(s.clients.slots, b);
    if j < |s.clients.slots| {
      RemoveStays(s.clients, i, s.clients.slots[j].vpnIp);
    }
  }

  lemma OthersStay(c: Suite, s: State, e: Event, i: nat)
    requires i < |s.clients.slots| && s.clients.slots[i].active
    requires e.Udp? ==> !e.packet.ConnectReq? && !e.packet.Disconnect?
    requires !e.Idle?
    ensures var t := Step(c, s, e).0.clients;
            |t.slots| == |s.clients.slots| && t.slots[i].active && t.slots[i].addr == s.clients.slots[i].addr
  {
    match e
    case Udp(_, Data(_), _, _) =>
    case Udp(_, Ping, _, _) =>
    case Udp(_, Other, _, _) =>
    case TunRead(_, _, _, _) =>
  }

  /** While its address is not shared, no event but an idle one can remove the peer. */
  lemma StepKeeps(c: Suite, w: World, e: Event, a: T.Addr)
    requires Lawful(c) && L.Balanced(w) && T.Knows(w.s.clients, a) && !e.Idle?
    requires e.Udp? && e.from == a ==> !e.packet.ConnectReq? && !e.packet.Disconnect?
    requires Alone(A.Entered(w.s, e), a)
    ensures T.Knows(Step(c, w.s, e).0.clients, a)
  {
    var i := T.SlotOfAddr(w.s.clients.slots, a);
    match e {
      case Udp(b, ConnectReq(pub), now, id) => ConnectStays(c, w.s, i, b, pub, now, id);
      case Udp(b, Disconnect, _, _) => LeaveStays(w.s, i, b);
      case _ => OthersStay(c, w.s, e, i);
    }
    L.NextBalances(c, w, e);
    T.KnownSlot(Step(c, w.s, e).0.clients, i);
  }

  // ---- The two machines joined ----

  ghost predicate NotLater(events: seq<Event>, i: nat, j: nat)
    requires i < |events| && j < |events|
  {
    events[i].now <= events[j].now
  }

  ghost predicate Clocked(events: seq<Event>) {
    forall i, j {:trigger NotLater(events, i, j)} :: 0 <= i <= j < |events| ==> NotLater(events, i, j)
  }

  predicate IsPing(e: Event, a: T.Addr) {
    e.Udp? && e.from == a && e.packet.Ping?
  }

  /** From event n on the peer neither connects anew nor disconnects. */
  ghost predicate Steady(events: seq<Event>, n: nat, a: T.Addr) {
    forall f :: n <= f < |events| && events[f].Udp? && events[f].from == a ==>
      !events[f].packet.ConnectReq? && !events[f].packet.Disconnect?
  }

  /** A PING of the peer sent at time x or later reached the server in events n to m. */
  ghost predicate Heard(events: seq<Event>, n: nat, m: nat, a: T.Addr, x: int)
    requires m <= |events|
  {
    exists f: nat :: n <= f < m && IsPing(events[f], a) && x <= events[f].now
  }

  /** Every PING the client sends reaches the server within J. */
  ghost predicate Delivered(cf: KA.Config, t0: int, ps: seq<KA.Pass>, events: seq<Event>, n: nat, a: T.Addr, J: int) {
    forall i, m :: 0 <= i < |ps| && n <= m < |events| && KA.Pings(cf, t0, ps, i) && ps[i].now + J < events[m].now ==>
      Heard(events, n, m, a, ps[i].now)
  }

  /** At every server event, the peer's last PING to arrive, or else its CONNECT, is recent
      enough to survive a sweep. R bounds how long before t0 the CONNECT was handled. */
  lemma RecentEnough(cf: KA.Config, t0: int, ps: seq<KA.Pass>, lap: int, J: int, R: int,
      events: seq<Event>, n: nat, m: nat, a: T.Addr, t: T.Table)
    requires KA.Timely(t0, ps, lap) && !KA.At(cf, t0, ps, |ps|).lost
    requires Delivered(cf, t0, ps, events, n, a, J) && n <= m < |events|
    requires events[m].now <= KA.Before(t0, ps, |ps|) + lap
    requires KA.Gap(cf, lap) + J + R <= T.CLIENT_TIMEOUT && J >= 0 && R >= 0
    requires SeenSince(t, a, t0 - R)
    requires forall f :: n <= f < m && IsPing(events[f], a) ==> SeenSince(t, a, events[f].now)
    ensures SeenSince(t, a, events[m].now - T.CLIENT_TIMEOUT)
  {
    var now := events[m].now;
    KA.PingRecent(cf, t0, ps, lap, |ps|, now);
    var x, k := KA.LookBack(cf, t0, ps, lap, J, |ps|, now);
    if k.Some? {
      assert Heard(events, n, m, a, ps[k.value].now);
      var f: nat :| n <= f < m && IsPing(events[f], a) && x <= events[f].now;
    }
  }

  /** Event n - 1 of the run is a CONNECT of the peer, and it is answered. */
  ghost predicate Welcomed(c: Suite, priv: seq<byte>, start: int, events: seq<Event>, n: nat, a: T.Addr)
    requires 0 < n <= |events|
  {
    && events[n - 1].Udp? && events[n - 1].from == a && events[n - 1].packet.ConnectReq?
    && LastOutput(c, priv, start, events[..n]).ConnectResp?
  }

  /** The client's loop runs on, not lost, through every event time, and its PINGs arrive. */
  ghost predicate Pinging(events: seq<Event>, n: nat, a: T.Addr, cf: KA.Config, t0: int, ps: seq<KA.Pass>,
      lap: int, J: int)
  {
    && KA.Timely(t0, ps, lap) && !KA.At(cf, t0, ps, |ps|).lost
    && (forall m :: n <= m < |events| ==> events[m].now <= KA.Before(t0, ps, |ps|) + lap)
    && Delivered(cf, t0, ps, events, n, a, J)
  }

  /** The whole setting: event n - 1 of the run is the peer's CONNECT, answered, no more
      than R before the client's clock started at t0; the client's loop runs on, not lost,
      through every event time, with laps of at most lap; and every PING it sends arrives
      within J. */
  ghost predicate Joined(c: Suite, priv: seq<byte>, start: int, events: seq<Event>, n: nat, a: T.Addr,
      cf: KA.Config, t0: int, ps: seq<KA.Pass>, lap: int, J: int, R: int)
  {
    && 0 < n <= |events|
    && Welcomed(c, priv, start, events, n, a)
    && t0 - R <= events[n - 1].now
    && Clocked(events) && Steady(events, n, a)
    && Pinging(events, n, a, cf, t0, ps, lap, J)
  }

  /** The peer is entered after m events of the run. */
  ghost predicate EnteredAt(c: Suite, priv: seq<byte>, start: int, events: seq<Event>, m: nat, a: T.Addr)
    requires m <= |events|
  {
    T.Knows(Run(c, priv, start, events[..m]).s.clients, a)
  }

  /** If entered, the peer was seen since its CONNECT and since every PING so far. */
  ghost predicate Fresh(t: T.Table, events: seq<Event>, n: nat, m: nat, a: T.Addr)
    requires 0 < n <= m <= |events|
  {
    T.Knows(t, a) ==>
      && SeenSince(t, a, events[n - 1].now)
      && forall f :: n <= f < m && IsPing(events[f], a) ==> SeenSince(t, a, events[f].now)
  }

  ghost predicate FreshAt(c: Suite, priv: seq<byte>, start: int, events: seq<Event>, n: nat, m: nat, a: T.Addr)
    requires 0 < n <= m <= |events|
  {
    Fresh(Run(c, priv, start, events[..m]).s.clients, events, n, m, a)
  }

  lemma StepFresh(c: Suite, w: World, events: seq<Event>, n: nat, m: nat, a: T.Addr)
    requires 0 < n <= m < |events| && Clocked(events) && Steady(events, n, a)
    requires Lawful(c) && L.Balanced(w) && Fresh(w.s.clients, events, n, m, a)
    ensures Fresh(Next(c, w, events[m]).s.clients, events, n, m + 1, a)
  {
    var e := events[m];
    var t := Step(c, w.s, e).0.clients;
    assert NotLater(events, n - 1, m);
    StepSees(c, w, e, a, events[n - 1].now);
    if T.Knows(t, a) {
      forall f | n <= f < m + 1 && IsPing(events[f], a) ensures SeenSince(t, a, events[f].now) {
        if f < m {
          assert NotLater(events, f, m);
          StepSees(c, w, e, a, events[f].now);
        }
      }
    }
  }

  /** The answered CONNECT stamps its entry. */
  lemma ConnectSees(c: Suite, s: State, a: T.Addr, pub: seq<byte>, now: int, id: nat)
    requires T.Valid(s.clients) && Connect(c, s, a, pub, now, id).1.ConnectResp?
    ensures SeenSince(Connect(c, s, a, pub, now, id).0.clients, a, now)
  {
    T.AddClientKeeps(s.clients, a, now, id);
  }

  lemma WelcomedIsEntered(c: Suite, priv: seq<byte>, start: int, events: seq<Event>, n: nat, a: T.Addr)
    requires Lawful(c) && 0 < n <= |events| && Welcomed(c, priv, start, events, n, a)
    ensures EnteredAt(c, priv, start, events, n, a) && FreshAt(c, priv, start, events, n, n, a)
  {
    var before, e := events[..n - 1], events[n - 1];
    assert events[..n][..n - 1] == before;
    L.RunBalances(c, priv, start, before);
    ConnectSees(c, Run(c, priv, start, before).s, a, e.packet.pub, e.now, e.sessionId);
  }

  lemma FreshNext(c: Suite, priv: seq<byte>, start: int, events: seq<Event>, n: nat, m: nat, a: T.Addr)
    requires Lawful(c) && 0 < n < m <= |events| && Clocked(events) && Steady(events, n, a)
    requires FreshAt(c, priv, start, events, n, m - 1, a)
    ensures FreshAt(c, priv, start, events, n, m, a)
  {
    var before := events[..m - 1];
    assert events[..m][..m - 1] == before;
    var w := Run(c, priv, start, before);
    assert Run(c, priv, start, events[..m]) == Next(c, w, events[m - 1]);
    L.RunBalances(c, priv, start, before);
    StepFresh(c, w, events, n, m - 1, a);
  }

  lemma {:induction false} RunFresh(c: Suite, priv: seq<byte>, start: int, events: seq<Event>, n: nat, m: nat,
      a: T.Addr)
    requires Lawful(c) && 0 < n <= m <= |events| && Welcomed(c, priv, start, events, n, a)
    requires Clocked(events) && Steady(events, n, a)
    ensures FreshAt(c, priv, start, events, n, m, a)
    decreases m
  {
    if m == n {
      WelcomedIsEntered(c, priv, start, events, n, a);
    } else {
      RunFresh(c, priv, start, events, n, m - 1, a);
      FreshNext(c, priv, start, events, n, m, a);
    }
  }

  /** Event m does not remove the peer. */
  ghost predicate KeptBy(c: Suite, priv: seq<byte>, start: int, events: seq<Event>, m: nat, a: T.Addr)
    requires m < |events|
  {
    EnteredAt(c, priv, start, events, m, a) ==> EnteredAt(c, priv, start, events, m + 1, a)
  }

  /** No sweep ever evicts a connected client whose PINGs arrive in time: in every run
      whatever, if the client is entered when an idle step comes, it is entered after it. */
  lemma NeverEvicted(c: Suite, priv: seq<byte>, start: int, events: seq<Event>, n: nat, m: nat, a: T.Addr,
      cf: KA.Config, t0: int, ps: seq<KA.Pass>, lap: int, J: int, R: int)
    requires Lawful(c) && Joined(c, priv, start, events, n, a, cf, t0, ps, lap, J, R)
    requires n <= m < |events| && J >= 0 && R >= 0
    requires KA.Gap(cf, lap) + J + R <= T.CLIENT_TIMEOUT
    ensures events[m].Idle? ==> KeptBy(c, priv, start, events, m, a)
  {
    if events[m].Idle? && EnteredAt(c, priv, start, events, m, a) {
      RunFresh(c, priv, start, events, n, m, a);
      SafeFromSweep(c, priv, start, events, n, m, a, cf, t0, ps, lap, J, R);
      IdleNext(c, priv, start, events, m, a);
    }
  }

  ghost predicate Safe(c: Suite, priv: seq<byte>, start: int, events: seq<Event>, m: nat, a: T.Addr)
    requires m < |events|
  {
    SeenSince(Run(c, priv, start, events[..m]).s.clients, a, events[m].now - T.CLIENT_TIMEOUT)
  }

  lemma SafeFromSweep(c: Suite, priv: seq<byte>, start: int, events: seq<Event>, n: nat, m: nat, a: T.Addr,
      cf: KA.Config, t0: int, ps: seq<KA.Pass>, lap: int, J: int, R: int)
    requires Joined(c, priv, start, events, n, a, cf, t0, ps, lap, J, R)
    requires n <= m < |events| && J >= 0 && R >= 0
    requires KA.Gap(cf, lap) + J + R <= T.CLIENT_TIMEOUT
    requires EnteredAt(c, priv, start, events, m, a) && FreshAt(c, priv, start, events, n, m, a)
    ensures Safe(c, priv, start, events, m, a)
  {
    RecentEnough(cf, t0, ps, lap, J, R, events, n, m, a, Run(c, priv, start, events[..m]).s.clients);
  }

  lemma IdleNext(c: Suite, priv: seq<byte>, start: int, events: seq<Event>, m: nat, a: T.Addr)
    requires Lawful(c) && m < |events| && events[m].Idle? && Safe(c, priv, start, events, m, a)
    ensures EnteredAt(c, priv, start, events, m + 1, a)
  {
    var before := events[..m];
    assert events[..m + 1][..m] == before;
    var w := Run(c, priv, start, before);
    assert Run(c, priv, start, events[..m + 1]) == Next(c, w, events[m]);
    L.RunBalances(c, priv, start, before);
    IdleKeeps(c, w, a, events[m].now);
  }

  // ---- Never removed by anything ----

  /** From event n on, no other active entry, and no peer being entered, holds the peer's VPN
      address. */
  ghost predicate Unshared(c: Suite, priv: seq<byte>, start: int, events: seq<Event>, n: nat, a: T.Addr) {
    forall m :: n <= m < |events| ==> UnsharedAt(c, priv, start, events, m, a)
  }

  ghost predicate UnsharedAt(c: Suite, priv: seq<byte>, start: int, events: seq<Event>, m: nat, a: T.Addr)
    requires m < |events|
  {
    Alone(A.Entered(Run(c, priv, start, events[..m]).s, events[m]), a)
  }

  lemma KeptNext(c: Suite, priv: seq<byte>, start: int, events: seq<Event>, m: nat, a: T.Addr)
    requires Lawful(c) && m < |events| && !events[m].Idle? && EnteredAt(c, priv, start, events, m, a)
    requires events[m].Udp? && events[m].from == a ==> !events[m].packet.ConnectReq? && !events[m].packet.Disconnect?
    requires UnsharedAt(c, priv, start, events, m, a)
    ensures EnteredAt(c, priv, start, events, m + 1, a)
  {
    var before := events[..m];
    assert events[..m + 1][..m] == before;
    var w := Run(c, priv, start, before);
    assert Run(c, priv, start, events[..m + 1]) == Next(c, w, events[m]);
    L.RunBalances(c, priv, start, before);
    StepKeeps(c, w, events[m], a);
  }

  lemma StaysEntered(c: Suite, priv: seq<byte>, start: int, events: seq<Event>, n: nat, m: nat, a: T.Addr,
      cf: KA.Config, t0: int, ps: seq<KA.Pass>, lap: int, J: int, R: int)
    requires Lawful(c) && Joined(c, priv, start, events, n, a, cf, t0, ps, lap, J, R)
    requires n <= m < |events| && J >= 0 && R >= 0
    requires KA.Gap(cf, lap) + J + R <= T.CLIENT_TIMEOUT
    requires UnsharedAt(c, priv, start, events, m, a) && EnteredAt(c, priv, start, events, m, a)
    ensures EnteredAt(c, priv, start, events, m + 1, a)
  {
    if events[m].Idle? {
      NeverEvicted(c, priv, start, events, n, m, a, cf, t0, ps, lap, J, R);
    } else {
      KeptNext(c, priv, start, events, m, a);
    }
  }

  lemma {:induction false} KeptByAll(c: Suite, priv: seq<byte>, start: int, events: seq<Event>, n: nat, m: nat,
      a: T.Addr)
    requires n <= m <= |events| && EnteredAt(c, priv, start, events, n, a)
    requires forall k :: n <= k < |events| ==> KeptBy(c, priv, start, events, k, a)
    ensures EnteredAt(c, priv, start, events, m, a)
    decreases m
  {
    if n < m {
      KeptByAll(c, priv, start, events, n, m - 1, a);
      assert KeptBy(c, priv, start, events, m - 1, a);
    }
  }

  /** Such a client, as long as nobody else holds or is given its VPN address, is entered
      after every event of any run. */
  lemma NeverRemoved(c: Suite, priv: seq<byte>, start: int, events: seq<Event>, n: nat, m: nat, a: T.Addr,
      cf: KA.Config, t0: int, ps: seq<KA.Pass>, lap: int, J: int, R: int)
    requires Lawful(c) && Joined(c, priv, start, events, n, a, cf, t0, ps, lap, J, R)
    requires Unshared(c, priv, start, events, n, a)
    requires n <= m <= |events| && J >= 0 && R >= 0
    requires KA.Gap(cf, lap) + J + R <= T.CLIENT_TIMEOUT
    ensures EnteredAt(c, priv, start, events, m, a)
  {
    forall k | n <= k < |events| ensures KeptBy(c, priv, start, events, k, a) {
      if EnteredAt(c, priv, start, events, k, a) {
        StaysEntered(c, priv, start, events, n, k, a, cf, t0, ps, lap, J, R);
      }
    }
    WelcomedIsEntered(c, priv, start, events, n, a);
    KeptByAll(c, priv, start, events, n, m, a);
  }

  // ---- Up to 254 addresses none is shared ----

  lemma {:induction false} IssuedSoFar(c: Suite, priv: seq<byte>, start: int, events: seq<Event>, m: nat)
    requires m <= |events|
    ensures Run(c, priv, start, events[..m]).h.issued <= Run(c, priv, start, events).h.issued
    decreases |events|
  {
    if m == |events| {
      assert events[..m] == events;
    } else {
      var before := events[..|events| - 1];
      assert before[..m] == events[..m];
      IssuedSoFar(c, priv, start, before, m);
      G.IssuedGrows(c, Run(c, priv, start, before), events[|events| - 1]);
    }
  }

  lemma NumberedAlone(t: T.Table, h: History, a: T.Addr)
    requires A.Numbered(t, h) && h.issued <= A.RANGE
    ensures Alone(t, a)
  {
    var i := T.SlotOfAddr(t.slots, a);
    if i < |t.slots| {
      forall j | 0 <= j < |t.slots| && j != i && t.slots[j].active ensures t.slots[j].vpnIp != t.slots[i].vpnIp {
        if i < j {
          A.Unwrapped(t, h, i, j);
        } else {
          A.Unwrapped(t, h, j, i);
        }
      }
    }
  }

  ghost predicate FewIssued(c: Suite, priv: seq<byte>, start: int, events: seq<Event>) {
    Run(c, priv, start, events).h.issued <= A.RANGE
  }

  lemma FewUnsharedAt(c: Suite, priv: seq<byte>, start: int, events: seq<Event>, m: nat, a: T.Addr)
    requires Lawful(c) && m < |events| && FewIssued(c, priv, start, events)
    ensures UnsharedAt(c, priv, start, events, m, a)
  {
    var before := events[..m];
    assert events[..m + 1][..m] == before;
    var w := Run(c, priv, start, before);
    IssuedSoFar(c, priv, start, events, m + 1);
    assert Run(c, priv, start, events[..m + 1]) == Next(c, w, events[m]);
    L.RunBalances(c, priv, start, before);
    A.RunNumbered(c, priv, start, before);
    A.EnteredNumbered(c, w, events[m]);
    NumberedAlone(A.Entered(w.s, events[m]), Next(c, w, events[m]).h, a);
  }

  /** In a run that hands out at most 254 addresses, no address is ever shared. */
  lemma FewAreUnshared(c: Suite, priv: seq<byte>, start: int, events: seq<Event>, n: nat, a: T.Addr)
    requires Lawful(c) && FewIssued(c, priv, start, events)
    ensures Unshared(c, priv, start, events, n, a)
  {
    forall m | n <= m < |events| ensures UnsharedAt(c, priv, start, events, m, a) {
      FewUnsharedAt(c, priv, start, events, m, a);
    }
  }
}
