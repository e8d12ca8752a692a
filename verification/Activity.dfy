/** last_seen is the time of the last accepted activity, over every run, so a sweep evicts
    exactly the clients that have been silent for longer than the timeout. */
module Activity {
  import opened Bytes
  import opened Crypto
  import T = ClientTable
  import opened Session
  import L = Ledger

  /** When the peer was last heard from or sent to. */
  ghost function LastActive(log: seq<(T.Addr, int)>, a: T.Addr): Option<int> {
    if log == [] then None
    else if log[|log| - 1].0 == a then Some(log[|log| - 1].1)
    else LastActive(log[..|log| - 1], a)
  }

  lemma LastActiveSnoc(log: seq<(T.Addr, int)>, a: T.Addr, now: int, b: T.Addr)
    ensures LastActive(log + [(a, now)], b) == if a == b then Some(now) else LastActive(log, b)
  {
    assert (log + [(a, now)])[..|log|] == log;
  }

  ghost predicate Stamped(t: T.Table, h: History) {
    forall i :: 0 <= i < |t.slots| && t.slots[i].active ==>
      LastActive(h.activity, t.slots[i].addr) == Some(t.slots[i].lastSeen)
  }

  lemma TouchStamps(t: T.Table, h: History, i: nat, now: int)
    requires T.Valid(t) && Stamped(t, h) && i < |t.slots| && t.slots[i].active
    ensures Stamped(T.Touch(t, i, now), h.(activity := h.activity + [(t.slots[i].addr, now)]))
  {
    var t' := T.Touch(t, i, now);
    forall j | 0 <= j < |t.slots| && t'.slots[j].active
      ensures LastActive(h.activity + [(t.slots[i].addr, now)], t'.slots[j].addr) == Some(t'.slots[j].lastSeen)
    {
      LastActiveSnoc(h.activity, t.slots[i].addr, now, t'.slots[j].addr);
    }
  }

  lemma EnterStamps(t: T.Table, h: History, a: T.Addr, now: int, id: nat)
    requires T.Valid(t) && Stamped(t, h) && T.AddClient(t, a, now, id).1 != 0
    ensures Stamped(T.AddClient(t, a, now, id).0, h.(activity := h.activity + [(a, now)]))
  {
    if T.Knows(t, a) {
      TouchStamps(t, h, T.SlotOfAddr(t.slots, a), now);
    } else {
      var t' := T.AddClient(t, a, now, id).0;
      forall j | 0 <= j < |t.slots| && t'.slots[j].active
        ensures LastActive(h.activity + [(a, now)], t'.slots[j].addr) == Some(t'.slots[j].lastSeen)
      {
        LastActiveSnoc(h.activity, a, now, t'.slots[j].addr);
      }
    }
  }

  lemma ConnectStamps(c: Suite, w: World, a: T.Addr, pub: seq<byte>, now: int, id: nat)
    requires T.Valid(w.s.clients) && Stamped(w.s.clients, w.h)
    ensures Stamped(Connect(c, w.s, a, pub, now, id).0.clients, NoteConnect(c, w.h, w.s, a, pub, now, id))
  {
    var (t, ip) := T.AddClient(w.s.clients, a, now, id);
    if ip != 0 {
      EnterStamps(w.s.clients, w.h, a, now, id);
      var h := NoteConnect(c, w.h, w.s, a, pub, now, id);
      assert Stamped(t, h);
      assert Stamped(T.RemoveClient(t, ip), h);
    }
  }

  lemma ForwardStamps(c: Suite, w: World, p: seq<byte>, nonce: seq<byte>, sent: bool, now: int)
    requires T.Valid(w.s.clients) && Stamped(w.s.clients, w.h)
    ensures Stamped(Forward(c, w.s, p, nonce, sent, now).0.clients,
                    NoteForward(c, w.h, w.s, TunRead(p, nonce, sent, now)))
  {
    var i := Route(w.s.clients, p);
    if i < |w.s.clients.slots| {
      TouchStamps(w.s.clients, w.h, i, now);
    }
  }

  lemma HeardStamps(w: World, a: T.Addr, now: int)
    requires T.Valid(w.s.clients) && Stamped(w.s.clients, w.h)
    ensures Stamped(Answer(w.s, a, now).0.clients, NoteActivity(w.h, w.s, a, now))
  {
    if T.Knows(w.s.clients, a) {
      TouchStamps(w.s.clients, w.h, T.SlotOfAddr(w.s.clients.slots, a), now);
    }
  }

  /** Deactivating entries keeps the stamps of the rest. */
  lemma ThinStamps(t: T.Table, t': T.Table, h: History, h': History)
    requires Stamped(t, h) && |t'.slots| == |t.slots| && h'.activity == h.activity
    requires forall i :: 0 <= i < |t.slots| && t'.slots[i].active ==> t'.slots[i] == t.slots[i]
    ensures Stamped(t', h')
  {
  }

  lemma LeaveStamps(w: World, a: T.Addr)
    requires Stamped(w.s.clients, w.h)
    ensures Stamped(Leave(w.s, a).0.clients, NoteLeave(w.h, w.s, a))
  {
    ThinStamps(w.s.clients, Leave(w.s, a).0.clients, w.h, NoteLeave(w.h, w.s, a));
  }

  lemma RestStamps(w: World, now: int)
    requires Stamped(w.s.clients, w.h)
    ensures Stamped(Rest(w.s, now).0.clients, NoteRest(w.h, w.s, now))
  {
    ThinStamps(w.s.clients, Rest(w.s, now).0.clients, w.h, NoteRest(w.h, w.s, now));
  }

  lemma DataStamps(c: Suite, w: World, a: T.Addr, body: seq<byte>, now: int)
    requires T.Valid(w.s.clients) && Stamped(w.s.clients, w.h)
    ensures Stamped(Receive(c, w.s, a, body, now).0.clients, NoteActivity(w.h, w.s, a, now))
  {
    HeardStamps(w, a, now);
    assert Receive(c, w.s, a, body, now).0 == Answer(w.s, a, now).0;
  }

  lemma NextStamped(c: Suite, w: World, e: Event)
    requires T.Valid(w.s.clients) && Stamped(w.s.clients, w.h)
    ensures Stamped(Next(c, w, e).s.clients, Next(c, w, e).h)
  {
    match e
    case Udp(a, ConnectReq(pub), now, id) => ConnectStamps(c, w, a, pub, now, id);
    case Udp(a, Data(body), now, _) => DataStamps(c, w, a, body, now);
    case Udp(a, Ping, now, _) => HeardStamps(w, a, now);
    case Udp(a, Disconnect, _, _) => LeaveStamps(w, a);
    case Udp(_, Other, _, _) =>
    case TunRead(p, nonce, sent, now) => ForwardStamps(c, w, p, nonce, sent, now);
    case Idle(now) => RestStamps(w, now);
  }

  lemma {:induction false} RunStamped(c: Suite, priv: seq<byte>, start: int, events: seq<Event>)
    requires Lawful(c)
    ensures Stamped(Run(c, priv, start, events).s.clients, Run(c, priv, start, events).h)
  {
    if events != [] {
      var before := events[..|events| - 1];
      RunStamped(c, priv, start, before);
      L.RunBalances(c, priv, start, before);
      NextStamped(c, Run(c, priv, start, before), events[|events| - 1]);
    }
  }

  /** An idle step of any run, once 30 seconds have passed since the last sweep, keeps a
      client exactly when its last activity is at most 300 seconds old; before that it
      keeps everyone. Nothing but the active flag changes. */
  lemma EvictionExact(c: Suite, priv: seq<byte>, start: int, events: seq<Event>, now: int)
    requires Lawful(c)
    ensures var w := Run(c, priv, start, events);
            var s := Step(c, w.s, Idle(now)).0;
            && |s.clients.slots| == |w.s.clients.slots| == 254
            && s.keys == w.s.keys
            && forall i :: 0 <= i < 254 ==>
                 var e, e' := w.s.clients.slots[i], s.clients.slots[i];
                 && e' == e.(active := e'.active)
                 && (e'.active ==> e.active)
                 && (e.active ==>
                       && LastActive(w.h.activity, e.addr).Some?
                       && (e'.active <==> now - w.s.lastSweep < 30
                                          || now - LastActive(w.h.activity, e.addr).value <= 300))
  {
    RunStamped(c, priv, start, events);
    L.RunBalances(c, priv, start, events);
    T.SweepExact(Run(c, priv, start, events).s.clients, now);
  }

  /** Sweeps are rate limited: less than 30 seconds after one, idle steps change nothing. */
  lemma IdleAfterSweep(c: Suite, s: State, now: int, later: int)
    requires now - s.lastSweep >= 30 && later - now < 30
    ensures var s' := Step(c, s, Idle(now)).0; Step(c, s', Idle(later)).0 == s'
  {
  }
}
