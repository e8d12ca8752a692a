/** The bound under which a pinging client is safe from eviction is exact. */
module EvictionBound {
  import opened Bytes
  import opened Crypto
  import T = ClientTable
  import opened Session
  import KA = Keepalive
  import opened Liveness

  function Shy(cf: KA.Config): nat {
    if cf.interval > 1 then cf.interval - 1 else 0
  }

  /** A client as late as allowed: passes every second until just short of the interval, one
      a whole lap later, then every second for J more; a PONG in every pass. */
  function Late(cf: KA.Config, t0: int, lap: int, J: int): (ps: seq<KA.Pass>)
    requires lap >= 1 && J >= 0
    ensures |ps| == Shy(cf) + J + 1
  {
    seq(Shy(cf) + J + 1, i requires i >= 0 =>
      var now := t0 + if i < Shy(cf) then i + 1 else lap + i;
      KA.Pass(now, true, Some(now)))
  }

  lemma LateTimely(cf: KA.Config, t0: int, lap: int, J: int)
    requires lap >= 1 && J >= 0
    ensures KA.Timely(t0, Late(cf, t0, lap, J), lap)
  {
    var ps := Late(cf, t0, lap, J);
    forall i | 0 <= i < |ps| ensures KA.TimelyAt(t0, ps, lap, i) {
    }
  }

  /** It is never lost, and sends its first PING a full gap after the start. */
  lemma {:induction false} LateAt(cf: KA.Config, t0: int, lap: int, J: int, i: nat)
    requires lap >= 1 && J >= 0 && cf.pongTimeout >= lap && i <= |Late(cf, t0, lap, J)|
    ensures var ps := Late(cf, t0, lap, J);
            var l := KA.At(cf, t0, ps, i);
            !l.lost && l.lastPong == KA.Before(t0, ps, i) && (i <= Shy(cf) ==> l.lastPing == t0)
  {
    if i > 0 {
      LateAt(cf, t0, lap, J, i - 1);
    }
  }

  /** A connection at time 0 and one idle second at the end. */
  function Silence(a: T.Addr, pub: seq<byte>, now: int): seq<Event> {
    [Udp(a, ConnectReq(pub), 0, 1), Idle(now)]
  }

  /** The sweep after more than 300 seconds removes the client. */
  lemma SweptAway(c: Suite, priv: seq<byte>, a: T.Addr, pub: seq<byte>, now: int)
    requires Lawful(c) && SessionKey(c, priv, pub).Some? && now > T.CLIENT_TIMEOUT
    ensures var s := Boot(c, priv, 0);
            var (s1, out) := Connect(c, s, a, pub, 0, 1);
            && out.ConnectResp?
            && NoteConnect(c, Begin(c, priv, 0).h, s, a, pub, 0, 1).issued <= 1
            && !T.Knows(Rest(s1, now).0.clients, a)
  {
    var s := Boot(c, priv, 0);
    T.InitValid();
    T.AddClientKeeps(s.clients, a, 0, 1);
    var t := T.AddClient(s.clients, a, 0, 1).0;
    Gone(t, a, now);
  }

  lemma Gone(t: T.Table, a: T.Addr, now: int)
    requires T.Valid(t) && T.Knows(t, a) && now - t.slots[T.SlotOfAddr(t.slots, a)].lastSeen > T.CLIENT_TIMEOUT
    ensures !T.Knows(T.Sweep(t, now), a)
  {
    T.SweepExact(t, now);
    var t' := T.Sweep(t, now);
    var j := T.SlotOfAddr(t'.slots, a);
    if j < |t'.slots| {
      T.KnownSlot(t, j);
      assert false;
    }
  }

  lemma SilenceRun(c: Suite, priv: seq<byte>, a: T.Addr, pub: seq<byte>, now: int)
    requires Lawful(c) && SessionKey(c, priv, pub).Some? && now > T.CLIENT_TIMEOUT
    ensures var events := Silence(a, pub, now);
            && Welcomed(c, priv, 0, events, 1, a)
            && FewIssued(c, priv, 0, events)
            && !EnteredAt(c, priv, 0, events, 2, a)
  {
    var events := Silence(a, pub, now);
    SweptAway(c, priv, a, pub, now);
    assert events[..2] == events && events[..2][..1] == events[..1] && events[..1][..0] == [];
    assert Run(c, priv, 0, []) == Begin(c, priv, 0);
    assert Run(c, priv, 0, events[..1]) == Next(c, Begin(c, priv, 0), events[0]);
    assert Run(c, priv, 0, events[..2]) == Next(c, Run(c, priv, 0, events[..1]), events[1]);
  }

  lemma SilenceJoined(c: Suite, priv: seq<byte>, a: T.Addr, pub: seq<byte>, cf: KA.Config, lap: int, J: int, R: int)
    requires Lawful(c) && SessionKey(c, priv, pub).Some?
    requires lap >= 1 && J >= 0 && R >= 0 && cf.pongTimeout >= lap
    requires KA.Gap(cf, lap) + J + R > T.CLIENT_TIMEOUT
    ensures Joined(c, priv, 0, Silence(a, pub, KA.Gap(cf, lap) + J + R), 1, a, cf, R, Late(cf, R, lap, J), lap, J, R)
  {
    var now := KA.Gap(cf, lap) + J + R;
    var events := Silence(a, pub, now);
    SilenceRun(c, priv, a, pub, now);
    LatePinging(a, pub, cf, lap, J, R);
    SilenceClocked(a, pub, now);
  }

  lemma SilenceClocked(a: T.Addr, pub: seq<byte>, now: int)
    requires now >= 0
    ensures Clocked(Silence(a, pub, now)) && Steady(Silence(a, pub, now), 1, a)
  {
    var events := Silence(a, pub, now);
    forall i, j | 0 <= i <= j < |events| ensures NotLater(events, i, j) {
    }
  }

  lemma LatePinging(a: T.Addr, pub: seq<byte>, cf: KA.Config, lap: int, J: int, R: int)
    requires lap >= 1 && J >= 0 && R >= 0 && cf.pongTimeout >= lap
    ensures Pinging(Silence(a, pub, KA.Gap(cf, lap) + J + R), 1, a, cf, R, Late(cf, R, lap, J), lap, J)
  {
    var now := KA.Gap(cf, lap) + J + R;
    var ps := Late(cf, R, lap, J);
    LateTimely(cf, R, lap, J);
    LateAt(cf, R, lap, J, |ps|);
    assert ps[|ps| - 1].now == now;
    LateDelivered(cf, lap, J, R, a, pub);
  }

  /** The last event is an idle step that removes the client, entered until then and sharing
      its address with nobody from event n on. */
  ghost predicate Evicts(c: Suite, priv: seq<byte>, start: int, events: seq<Event>, n: nat, a: T.Addr) {
    && |events| > n
    && Unshared(c, priv, start, events, n, a)
    && events[|events| - 1].Idle?
    && EnteredAt(c, priv, start, events, |events| - 1, a)
    && !EnteredAt(c, priv, start, events, |events|, a)
  }

  lemma SilenceEvicts(c: Suite, priv: seq<byte>, a: T.Addr, pub: seq<byte>, now: int)
    requires Lawful(c) && SessionKey(c, priv, pub).Some? && now > T.CLIENT_TIMEOUT
    ensures Evicts(c, priv, 0, Silence(a, pub, now), 1, a)
  {
    var events := Silence(a, pub, now);
    SilenceRun(c, priv, a, pub, now);
    assert EnteredAt(c, priv, 0, events, 1, a) by {
      WelcomedIsEntered(c, priv, 0, events, 1, a);
    }
    assert Unshared(c, priv, 0, events, 1, a) by {
      FewAreUnshared(c, priv, 0, events, 1, a);
    }
  }

  /** A client that keeps every promise and is evicted all the same. */
  ghost predicate Fails(c: Suite, priv: seq<byte>, events: seq<Event>, a: T.Addr, cf: KA.Config, t0: int,
      ps: seq<KA.Pass>, lap: int, J: int, R: int)
  {
    Joined(c, priv, 0, events, 1, a, cf, t0, ps, lap, J, R) && Evicts(c, priv, 0, events, 1, a)
  }

  lemma FailsIf(c: Suite, priv: seq<byte>, a: T.Addr, pub: seq<byte>, events: seq<Event>, cf: KA.Config, t0: int,
      ps: seq<KA.Pass>, lap: int, J: int, R: int)
    requires Lawful(c) && SessionKey(c, priv, pub).Some?
    requires Joined(c, priv, 0, events, 1, a, cf, t0, ps, lap, J, R)
    requires exists now :: now > T.CLIENT_TIMEOUT && events == Silence(a, pub, now)
    ensures Fails(c, priv, events, a, cf, t0, ps, lap, J, R)
  {
    var now :| now > T.CLIENT_TIMEOUT && events == Silence(a, pub, now);
    SilenceEvicts(c, priv, a, pub, now);
  }

  /** Past the bound there is such a client. */
  lemma EvictedPastBound(c: Suite, priv: seq<byte>, a: T.Addr, pub: seq<byte>, cf: KA.Config, lap: int, J: int, R: int)
    requires Lawful(c) && SessionKey(c, priv, pub).Some?
    requires lap >= 1 && J >= 0 && R >= 0 && cf.pongTimeout >= lap
    requires KA.Gap(cf, lap) + J + R > T.CLIENT_TIMEOUT
    ensures exists events: seq<Event>, ps :: Fails(c, priv, events, a, cf, R, ps, lap, J, R)
  {
    var events := Silence(a, pub, KA.Gap(cf, lap) + J + R);
    SilenceJoined(c, priv, a, pub, cf, lap, J, R);
    var ps := Late(cf, R, lap, J);
    FailsIf(c, priv, a, pub, events, cf, R, ps, lap, J, R);
  }

  /** None of its PINGs is overdue. */
  lemma LateDelivered(cf: KA.Config, lap: int, J: int, R: int, a: T.Addr, pub: seq<byte>)
    requires lap >= 1 && J >= 0 && cf.pongTimeout >= lap
    ensures Delivered(cf, R, Late(cf, R, lap, J), Silence(a, pub, KA.Gap(cf, lap) + J + R), 1, a, J)
  {
    var now := KA.Gap(cf, lap) + J + R;
    var ps := Late(cf, R, lap, J);
    forall i | 0 <= i < |ps| && KA.Pings(cf, R, ps, i) ensures ps[i].now + J >= now {
      LateAt(cf, R, lap, J, i);
    }
  }

  /** For given timers: no idle step of any run evicts a client that connected, keeps its
      laps and has its PINGs delivered within J, if and only if the gap between PINGs, J and
      the head start R of its CONNECT sum to at most 300 seconds. */
  lemma EvictionBoundExact(c: Suite, priv: seq<byte>, a: T.Addr, pub: seq<byte>, cf: KA.Config,
      lap: int, J: int, R: int)
    requires Lawful(c) && SessionKey(c, priv, pub).Some?
    requires lap >= 1 && J >= 0 && R >= 0 && cf.pongTimeout >= lap
    ensures (forall start, events: seq<Event>, n: nat, m: nat, t0, ps ::
               Joined(c, priv, start, events, n, a, cf, t0, ps, lap, J, R) && n <= m < |events| &&
               events[m].Idle? && EnteredAt(c, priv, start, events, m, a) ==>
                 EnteredAt(c, priv, start, events, m + 1, a))
            <==> KA.Gap(cf, lap) + J + R <= 300
  {
    if KA.Gap(cf, lap) + J + R <= T.CLIENT_TIMEOUT {
      forall start, events: seq<Event>, n: nat, m: nat, t0, ps |
        Joined(c, priv, start, events, n, a, cf, t0, ps, lap, J, R) && n <= m < |events| &&
        events[m].Idle? && EnteredAt(c, priv, start, events, m, a)
        ensures EnteredAt(c, priv, start, events, m + 1, a)
      {
        NeverEvicted(c, priv, start, events, n, m, a, cf, t0, ps, lap, J, R);
      }
    } else {
      EvictedPastBound(c, priv, a, pub, cf, lap, J, R);
      var events: seq<Event>, ps :| Fails(c, priv, events, a, cf, R, ps, lap, J, R);
    }
  }

  /** The same bound decides whether every such client that shares its VPN address with
      nobody stays entered after every event of every run. */
  lemma RemovalBoundExact(c: Suite, priv: seq<byte>, a: T.Addr, pub: seq<byte>, cf: KA.Config, lap: int, J: int, R: int)
    requires Lawful(c) && SessionKey(c, priv, pub).Some?
    requires lap >= 1 && J >= 0 && R >= 0 && cf.pongTimeout >= lap
    ensures (forall start, events: seq<Event>, n: nat, m: nat, t0, ps ::
               Joined(c, priv, start, events, n, a, cf, t0, ps, lap, J, R) &&
               Unshared(c, priv, start, events, n, a) && n <= m <= |events| ==>
                 EnteredAt(c, priv, start, events, m, a))
            <==> KA.Gap(cf, lap) + J + R <= 300
  {
    if KA.Gap(cf, lap) + J + R <= T.CLIENT_TIMEOUT {
      forall start, events: seq<Event>, n: nat, m: nat, t0, ps |
        Joined(c, priv, start, events, n, a, cf, t0, ps, lap, J, R) &&
        Unshared(c, priv, start, events, n, a) && n <= m <= |events|
        ensures EnteredAt(c, priv, start, events, m, a)
      {
        NeverRemoved(c, priv, start, events, n, m, a, cf, t0, ps, lap, J, R);
      }
    } else {
      EvictedPastBound(c, priv, a, pub, cf, lap, J, R);
      var events: seq<Event>, ps :| Fails(c, priv, events, a, cf, R, ps, lap, J, R);
    }
  }
}
