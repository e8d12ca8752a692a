/** Client and server together, both ways: PINGs that arrive in time keep the client entered,
    and the PONGs the server answers them with keep the link up. */
module Heartbeat {
  import opened Bytes
  import opened Crypto
  import T = ClientTable
  import opened Session
  import KA = Keepalive
  import opened Liveness

  /** Event f is a PING of the peer that can be the one of pass i, no more than J after it. */
  ghost predicate Arrived(ps: seq<KA.Pass>, events: seq<Event>, n: nat, a: T.Addr, J: int, i: nat, f: nat)
    requires i < |ps|
  {
    n <= f < |events| && IsPing(events[f], a) && ps[i].now <= events[f].now <= ps[i].now + J
  }

  /** Either clock shows a time later than x. */
  ghost predicate Past(ps: seq<KA.Pass>, events: seq<Event>, n: nat, x: int) {
    (exists j: nat :: j < |ps| && ps[j].now > x) || (exists m: nat :: n <= m < |events| && events[m].now > x)
  }

  /** Every PING sent has reached the server once J has passed. */
  ghost predicate Reach(cf: KA.Config, t0: int, ps: seq<KA.Pass>, events: seq<Event>, n: nat, a: T.Addr, J: int) {
    forall i: nat :: i < |ps| && KA.Pings(cf, t0, ps, i) && Past(ps, events, n, ps[i].now + J) ==>
      exists f: nat :: Arrived(ps, events, n, a, J, i, f)
  }

  /** The server's answer to event f is a PONG for the peer. */
  ghost predicate Answers(c: Suite, priv: seq<byte>, start: int, events: seq<Event>, f: nat, a: T.Addr)
    requires f < |events|
  {
    LastOutput(c, priv, start, events[..f + 1]) == Pong(a)
  }

  /** Every PONG the server answers a PING of pass i with is handled, in that pass or a later
      one, before more than K has passed. */
  ghost predicate Return(c: Suite, priv: seq<byte>, start: int, ps: seq<KA.Pass>, events: seq<Event>, n: nat,
      a: T.Addr, J: int, K: int)
  {
    forall i: nat, f: nat, j: nat ::
      (&& i < j < |ps| && Arrived(ps, events, n, a, J, i, f) && Answers(c, priv, start, events, f, a)
       && ps[j].now > events[f].now + K) ==>
      KA.PongWithin(ps, i, j)
  }

  /** The server answers every PING, whoever sends it and whatever happened before. */
  lemma EveryPingAnswered(c: Suite, priv: seq<byte>, start: int, events: seq<Event>, f: nat, a: T.Addr)
    requires f < |events| && IsPing(events[f], a)
    ensures Answers(c, priv, start, events, f, a)
  {
    var upTo := events[..f + 1];
    assert upTo[|upTo| - 1] == events[f];
  }

  /** So PINGs that arrive within J, and PONGs handled within K, are PINGs answered within the
      sum. */
  lemma AnsweredInTime(c: Suite, priv: seq<byte>, start: int, events: seq<Event>, n: nat, a: T.Addr,
      cf: KA.Config, t0: int, ps: seq<KA.Pass>, J: int, K: int)
    requires Reach(cf, t0, ps, events, n, a, J) && Return(c, priv, start, ps, events, n, a, J, K) && K >= 0
    ensures KA.Answered(cf, t0, ps, J + K)
  {
    forall i, j | 0 <= i < j < |ps| && KA.Pings(cf, t0, ps, i) && ps[j].now > ps[i].now + (J + K)
      ensures KA.PongWithin(ps, i, j)
    {
      assert Past(ps, events, n, ps[i].now + J);
      var f: nat :| Arrived(ps, events, n, a, J, i, f);
      EveryPingAnswered(c, priv, start, events, f, a);
    }
  }

  /** And they are delivered in the sense of the server's events. */
  lemma DeliveredInTime(events: seq<Event>, n: nat, a: T.Addr, cf: KA.Config, t0: int, ps: seq<KA.Pass>, J: int)
    requires Reach(cf, t0, ps, events, n, a, J) && Clocked(events)
    ensures Delivered(cf, t0, ps, events, n, a, J)
  {
    forall i, m | 0 <= i < |ps| && n <= m < |events| && KA.Pings(cf, t0, ps, i) && ps[i].now + J < events[m].now
      ensures Heard(events, n, m, a, ps[i].now)
    {
      assert Past(ps, events, n, ps[i].now + J);
      var f: nat :| Arrived(ps, events, n, a, J, i, f);
      assert m <= f ==> NotLater(events, m, f);
    }
  }

  /** The setting: event n - 1 of the run is the peer's CONNECT, answered, no more than R
      before the client's clock started at t0; the client's passes follow each other within
      lap and reach up to every event; PINGs arrive within J and PONGs are handled within K. */
  ghost predicate Linked(c: Suite, priv: seq<byte>, start: int, events: seq<Event>, n: nat, a: T.Addr,
      cf: KA.Config, t0: int, ps: seq<KA.Pass>, lap: int, J: int, K: int, R: int)
  {
    && 0 < n <= |events|
    && Welcomed(c, priv, start, events, n, a)
    && t0 - R <= events[n - 1].now
    && Clocked(events) && Steady(events, n, a)
    && KA.Timely(t0, ps, lap)
    && (forall m :: n <= m < |events| ==> events[m].now <= KA.Before(t0, ps, |ps|) + lap)
    && Reach(cf, t0, ps, events, n, a, J)
    && Return(c, priv, start, ps, events, n, a, J, K)
  }

  /** Both bounds. */
  predicate InTime(cf: KA.Config, lap: int, J: int, K: int, R: int) {
    && J >= 0 && K >= 0 && R >= 0
    && KA.Gap(cf, lap) + J + K <= cf.pongTimeout
    && KA.Gap(cf, lap) + J + R <= T.CLIENT_TIMEOUT
  }

  lemma NeverLost(c: Suite, priv: seq<byte>, start: int, events: seq<Event>, n: nat, a: T.Addr,
      cf: KA.Config, t0: int, ps: seq<KA.Pass>, lap: int, J: int, K: int, R: int, j: nat)
    requires Linked(c, priv, start, events, n, a, cf, t0, ps, lap, J, K, R) && InTime(cf, lap, J, K, R)
    requires j <= |ps|
    ensures !KA.At(cf, t0, ps, j).lost
  {
    AnsweredInTime(c, priv, start, events, n, a, cf, t0, ps, J, K);
    KA.NeverLost(cf, t0, ps, lap, J + K, j);
  }

  lemma LinkedJoined(c: Suite, priv: seq<byte>, start: int, events: seq<Event>, n: nat, a: T.Addr,
      cf: KA.Config, t0: int, ps: seq<KA.Pass>, lap: int, J: int, K: int, R: int)
    requires Linked(c, priv, start, events, n, a, cf, t0, ps, lap, J, K, R) && InTime(cf, lap, J, K, R)
    ensures Joined(c, priv, start, events, n, a, cf, t0, ps, lap, J, R)
  {
    NeverLost(c, priv, start, events, n, a, cf, t0, ps, lap, J, K, R, |ps|);
    DeliveredInTime(events, n, a, cf, t0, ps, J);
  }

  /** Within the bounds the client never declares the link lost and no sweep of any run evicts
      it; and as long as nobody shares its VPN address it is entered after every event. */
  lemma NeverLostNorEvicted(c: Suite, priv: seq<byte>, start: int, events: seq<Event>, n: nat, a: T.Addr,
      cf: KA.Config, t0: int, ps: seq<KA.Pass>, lap: int, J: int, K: int, R: int, m: nat, j: nat)
    requires Lawful(c) && Linked(c, priv, start, events, n, a, cf, t0, ps, lap, J, K, R) && InTime(cf, lap, J, K, R)
    requires n <= m <= |events| && j <= |ps|
    ensures !KA.At(cf, t0, ps, j).lost
    ensures m < |events| && events[m].Idle? ==> KeptBy(c, priv, start, events, m, a)
    ensures Unshared(c, priv, start, events, n, a) ==> EnteredAt(c, priv, start, events, m, a)
  {
    NeverLost(c, priv, start, events, n, a, cf, t0, ps, lap, J, K, R, j);
    LinkedJoined(c, priv, start, events, n, a, cf, t0, ps, lap, J, K, R);
    if m < |events| {
      NeverEvicted(c, priv, start, events, n, m, a, cf, t0, ps, lap, J, R);
    }
    if Unshared(c, priv, start, events, n, a) {
      NeverRemoved(c, priv, start, events, n, m, a, cf, t0, ps, lap, J, R);
    }
  }
}
