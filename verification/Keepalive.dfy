/** The client's keepalive as a timed machine: PINGs sent, PONGs awaited, the connection
    declared lost (check_keepalive, send_ping and the main loop of
    VPN/src/client/vpn_client.c). */
module Keepalive {
  import opened Crypto

  datatype Link = Link(lastPing: int, lastPong: int, lost: bool)

  datatype Config = Config(interval: int, pongTimeout: int)

  /** One pass of the main loop: the clock at check_keepalive, whether a PING would go out,
      and the clock when a PONG is handled later in the pass, if one is. */
  datatype Pass = Pass(now: int, sent: bool, pong: Option<int>)

  predicate TimedOut(cf: Config, l: Link, now: int) {
    now - l.lastPong > cf.pongTimeout
  }

  predicate PingDue(cf: Config, l: Link, now: int) {
    !TimedOut(cf, l, now) && now - l.lastPing >= cf.interval
  }

  function Check(cf: Config, l: Link, now: int, sent: bool): Link {
    if TimedOut(cf, l, now) then l.(lost := true)
    else if PingDue(cf, l, now) && sent then l.(lastPing := now)
    else l
  }

  function Turn(cf: Config, l: Link, p: Pass): Link {
    var l1 := Check(cf, l, p.now, p.sent);
    if l.lost || l1.lost || p.pong.None? then l1 else l1.(lastPong := p.pong.value)
  }

  /** The link before pass i of a session established at time t0. */
  function At(cf: Config, t0: int, ps: seq<Pass>, i: nat): Link
    requires i <= |ps|
  {
    if i == 0 then Link(t0, t0, false) else Turn(cf, At(cf, t0, ps, i - 1), ps[i - 1])
  }

  /** Pass i sends a PING. */
  predicate Pings(cf: Config, t0: int, ps: seq<Pass>, i: nat)
    requires i < |ps|
  {
    !At(cf, t0, ps, i).lost && PingDue(cf, At(cf, t0, ps, i), ps[i].now)
  }

  function Before(t0: int, ps: seq<Pass>, i: nat): int
    requires i <= |ps|
  {
    if i == 0 then t0 else ps[i - 1].now
  }

  ghost predicate TimelyAt(t0: int, ps: seq<Pass>, T: int, i: nat)
    requires i < |ps|
  {
    && Before(t0, ps, i) <= ps[i].now <= Before(t0, ps, i) + T
    && ps[i].sent
    && (ps[i].pong.Some? ==> ps[i].now <= ps[i].pong.value)
    && (ps[i].pong.Some? && i + 1 < |ps| ==> ps[i].pong.value <= ps[i + 1].now)
  }

  /** Passes follow each other within T, sends succeed, and a PONG is handled between its
      pass and the next. */
  ghost predicate Timely(t0: int, ps: seq<Pass>, T: int) {
    forall i {:trigger TimelyAt(t0, ps, T, i)} :: 0 <= i < |ps| ==> TimelyAt(t0, ps, T, i)
  }

  /** Some PONG is handled in the passes from i up to, not including, j. */
  ghost predicate PongWithin(ps: seq<Pass>, i: nat, j: nat)
    requires j <= |ps|
  {
    exists k: nat :: i <= k < j && ps[k].pong.Some?
  }

  /** By the time a pass is more than D later than a PING, a PONG has been handled since. */
  ghost predicate Answered(cf: Config, t0: int, ps: seq<Pass>, D: int) {
    forall i, j :: 0 <= i < j < |ps| && Pings(cf, t0, ps, i) && ps[j].now > ps[i].now + D ==>
      PongWithin(ps, i, j)
  }

  /** The longest time between two PINGs, or before the first. */
  function Gap(cf: Config, T: int): int {
    if cf.interval > 1 then cf.interval - 1 + T else T
  }

  // ---- What the link holds, pass by pass ----

  /** The last PONG handled in the first i passes, or else the start. */
  function LastPong(t0: int, ps: seq<Pass>, i: nat): int
    requires i <= |ps|
  {
    if i == 0 then t0 else if ps[i - 1].pong.Some? then ps[i - 1].pong.value else LastPong(t0, ps, i - 1)
  }

  /** At pass j more than the timeout has gone by since the last PONG. */
  ghost predicate Silent(cf: Config, t0: int, ps: seq<Pass>, j: nat)
    requires j < |ps|
  {
    ps[j].now > LastPong(t0, ps, j) + cf.pongTimeout
  }

  /** The link is lost if and only if some pass found it silent for longer than the timeout;
      until then its clock is that of the last PONG. */
  lemma {:induction false} LostIff(cf: Config, t0: int, ps: seq<Pass>, i: nat)
    requires i <= |ps|
    ensures At(cf, t0, ps, i).lost <==> exists j: nat :: j < i && Silent(cf, t0, ps, j)
    ensures !At(cf, t0, ps, i).lost ==> At(cf, t0, ps, i).lastPong == LastPong(t0, ps, i)
  {
    if i > 0 {
      LostIff(cf, t0, ps, i - 1);
      if At(cf, t0, ps, i).lost && !At(cf, t0, ps, i - 1).lost {
        assert Silent(cf, t0, ps, i - 1);
      }
    }
  }

  /** Pass m sent a PING, and no pass from there to i did. */
  ghost predicate PingedLast(cf: Config, t0: int, ps: seq<Pass>, m: nat, i: nat)
    requires m < i <= |ps|
  {
    && Pings(cf, t0, ps, m) && ps[m].sent
    && forall j: nat :: m < j < i ==> !(Pings(cf, t0, ps, j) && ps[j].sent)
  }

  /** The PING clock is that of the last PING whose send worked, or the start. A send that
      fails leaves it alone, so the next pass tries again. */
  lemma {:induction false} LastPingIs(cf: Config, t0: int, ps: seq<Pass>, i: nat) returns (m: Option<nat>)
    requires i <= |ps| && !At(cf, t0, ps, i).lost
    ensures m.None? ==> At(cf, t0, ps, i).lastPing == t0
                        && forall j: nat :: j < i ==> !(Pings(cf, t0, ps, j) && ps[j].sent)
    ensures m.Some? ==> m.value < i && PingedLast(cf, t0, ps, m.value, i)
                        && At(cf, t0, ps, i).lastPing == ps[m.value].now
  {
    if i == 0 {
      m := None;
    } else if Pings(cf, t0, ps, i - 1) && ps[i - 1].sent {
      m := Some(i - 1);
    } else {
      m := LastPingIs(cf, t0, ps, i - 1);
    }
  }

  /** A PING is due exactly when the interval has gone by since then. */
  lemma PingsIff(cf: Config, t0: int, ps: seq<Pass>, i: nat)
    requires i < |ps|
    ensures Pings(cf, t0, ps, i) <==>
              !At(cf, t0, ps, i + 1).lost && ps[i].now - At(cf, t0, ps, i).lastPing >= cf.interval
  {
    LostIff(cf, t0, ps, i);
  }

  // ---- Bounds ----

  /** The last PING, if any, came from an earlier pass. */
  lemma {:induction false} LastPingSource(cf: Config, t0: int, ps: seq<Pass>, T: int, i: nat) returns (m: Option<nat>)
    requires i <= |ps| && Timely(t0, ps, T)
    requires !At(cf, t0, ps, i).lost
    ensures m.None? ==> At(cf, t0, ps, i).lastPing == t0
    ensures m.Some? ==> m.value < i && Pings(cf, t0, ps, m.value) && ps[m.value].now == At(cf, t0, ps, i).lastPing
  {
    if i == 0 {
      m := None;
    } else if Pings(cf, t0, ps, i - 1) {
      assert TimelyAt(t0, ps, T, i - 1);
      m := Some(i - 1);
    } else {
      m := LastPingSource(cf, t0, ps, T, i - 1);
    }
  }

  /** PINGs are never further apart than the gap, up to any moment the next pass could be at. */
  lemma PingRecent(cf: Config, t0: int, ps: seq<Pass>, T: int, i: nat, now: int)
    requires Timely(t0, ps, T) && i <= |ps| && now <= Before(t0, ps, i) + T
    requires !At(cf, t0, ps, i).lost
    ensures now - At(cf, t0, ps, i).lastPing <= Gap(cf, T)
  {
    assert i > 0 ==> TimelyAt(t0, ps, T, i - 1);
  }

  /** Looking back from a moment: among the PINGs and the start of the session there is one
      no older than the gap plus D that is the start or was sent more than D ago. */
  lemma {:induction false} LookBack(cf: Config, t0: int, ps: seq<Pass>, T: int, D: int, i: nat, now: int)
    returns (x: int, m: Option<nat>)
    requires Timely(t0, ps, T) && i <= |ps| && !At(cf, t0, ps, i).lost
    requires At(cf, t0, ps, i).lastPing >= now - D - Gap(cf, T)
    ensures x >= now - D - Gap(cf, T)
    ensures m.None? ==> x == t0
    ensures m.Some? ==> m.value < i && Pings(cf, t0, ps, m.value) && ps[m.value].now == x && x + D < now
  {
    m := LastPingSource(cf, t0, ps, T, i);
    x := At(cf, t0, ps, i).lastPing;
    if m.Some? && x + D >= now {
      assert TimelyAt(t0, ps, T, m.value);
      PingRecent(cf, t0, ps, T, m.value, x);
      x, m := LookBack(cf, t0, ps, T, D, m.value, now);
    }
  }

  /** lastPong never falls behind a PONG that was handled, nor behind the start. */
  lemma {:induction false} PongKept(cf: Config, t0: int, ps: seq<Pass>, T: int, k: nat, j: nat)
    requires Timely(t0, ps, T) && j <= |ps| && !At(cf, t0, ps, j).lost
    requires k < j ==> ps[k].pong.Some?
    ensures t0 <= At(cf, t0, ps, j).lastPong
    ensures k < j ==> ps[k].pong.value <= At(cf, t0, ps, j).lastPong
    ensures j < |ps| ==> At(cf, t0, ps, j).lastPong <= ps[j].now
    ensures Before(t0, ps, j) >= t0
    decreases j
  {
    assert j < |ps| ==> TimelyAt(t0, ps, T, j);
    if j > 0 {
      assert TimelyAt(t0, ps, T, j - 1);
      PongKept(cf, t0, ps, T, if k < j - 1 then k else j, j - 1);
    }
  }

  /** Times do not decrease along the passes. */
  lemma {:induction false} Ordered(t0: int, ps: seq<Pass>, T: int, i: nat, j: nat)
    requires Timely(t0, ps, T) && i <= j < |ps|
    ensures ps[i].now <= ps[j].now
  {
    if i < j {
      Ordered(t0, ps, T, i, j - 1);
      assert TimelyAt(t0, ps, T, j);
    }
  }

  /** A pass finds the last PONG at most gap plus D old. */
  lemma PongRecent(cf: Config, t0: int, ps: seq<Pass>, T: int, D: int, j: nat)
    requires Timely(t0, ps, T) && Answered(cf, t0, ps, D) && D >= 0
    requires j < |ps| && !At(cf, t0, ps, j).lost
    ensures ps[j].now - At(cf, t0, ps, j).lastPong <= Gap(cf, T) + D
  {
    assert TimelyAt(t0, ps, T, j);
    PingRecent(cf, t0, ps, T, j, ps[j].now);
    var x, m := LookBack(cf, t0, ps, T, D, j, ps[j].now);
    if m.None? {
      PongKept(cf, t0, ps, T, j, j);
    } else {
      assert PongWithin(ps, m.value, j);
      var k: nat :| m.value <= k < j && ps[k].pong.Some?;
      Ordered(t0, ps, T, m.value, k);
      assert TimelyAt(t0, ps, T, k);
      PongKept(cf, t0, ps, T, k, j);
    }
  }

  /** Soundness: with the gap and D within the PONG timeout, no session, however long, is
      ever declared lost. */
  lemma {:induction false} NeverLost(cf: Config, t0: int, ps: seq<Pass>, T: int, D: int, j: nat)
    requires Timely(t0, ps, T) && Answered(cf, t0, ps, D) && D >= 0 && j <= |ps|
    requires Gap(cf, T) + D <= cf.pongTimeout
    ensures !At(cf, t0, ps, j).lost
  {
    if j > 0 {
      NeverLost(cf, t0, ps, T, D, j - 1);
      PongRecent(cf, t0, ps, T, D, j - 1);
    }
  }

  // ---- The bound is exact ----

  /** Passes every second until just short of the interval, one as late as allowed, then
      every second for D more; no PONG at all. */
  function Worst(cf: Config, T: int, D: int): (ps: seq<Pass>)
    requires T >= 1 && D >= 0
    ensures |ps| == (if cf.interval > 1 then cf.interval - 1 else 0) + D + 1
  {
    var q := if cf.interval > 1 then cf.interval - 1 else 0;
    seq(q + D + 1, i requires i >= 0 => Pass(if i < q then i + 1 else T + i, true, None))
  }

  lemma {:induction false} WorstAt(cf: Config, T: int, D: int, i: nat)
    requires T >= 1 && D >= 0 && i <= |Worst(cf, T, D)|
    ensures var l := At(cf, 0, Worst(cf, T, D), i);
            l.lastPong == 0 && (i <= |Worst(cf, T, D)| - D - 1 && !l.lost ==> l.lastPing == 0)
  {
    if i > 0 {
      WorstAt(cf, T, D, i - 1);
    }
  }

  lemma WorstAdmissible(cf: Config, T: int, D: int)
    requires T >= 1 && D >= 0
    ensures Timely(0, Worst(cf, T, D), T) && Answered(cf, 0, Worst(cf, T, D), D)
  {
    var ps := Worst(cf, T, D);
    forall i | 0 <= i < |ps| ensures TimelyAt(0, ps, T, i) {
    }
    forall i, j | 0 <= i < j < |ps| && Pings(cf, 0, ps, i)
      ensures ps[j].now <= ps[i].now + D
    {
      WorstAt(cf, T, D, i);
    }
  }

  /** Keepalive is safe for every admissible session exactly when the interval less one, the
      longest pass and the answer delay together stay within the PONG timeout. */
  lemma KeepaliveExact(cf: Config, T: int, D: int)
    requires T >= 1 && D >= 0
    ensures (forall t0, ps :: Timely(t0, ps, T) && Answered(cf, t0, ps, D) ==> !At(cf, t0, ps, |ps|).lost)
            <==> Gap(cf, T) + D <= cf.pongTimeout
  {
    if Gap(cf, T) + D <= cf.pongTimeout {
      forall t0, ps | Timely(t0, ps, T) && Answered(cf, t0, ps, D) ensures !At(cf, t0, ps, |ps|).lost {
        NeverLost(cf, t0, ps, T, D, |ps|);
      }
    } else {
      var ps := Worst(cf, T, D);
      WorstAdmissible(cf, T, D);
      WorstAt(cf, T, D, |ps| - 1);
      assert ps[|ps| - 1].now == Gap(cf, T) + D;
      assert At(cf, 0, ps, |ps|).lost;
    }
  }
}
