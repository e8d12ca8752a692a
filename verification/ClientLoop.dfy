/** The client's main loop as a machine over its turns: keepalive, losses and reconnections
    (main and attempt_reconnect in VPN/src/client/vpn_client.c). */
module ClientLoop {
  import opened Crypto
  import opened Backoff
  import Keepalive

  datatype Settings = Settings(autoReconnect: bool, maxReconnectAttempts: int, keepalive: Keepalive.Config)

  /** What a turn meets: when an answer to a CONNECT_REQ, if one is sent, joins, by the clock;
      whether TUN setup works; select's result; and the pass of the keepalive machine. */
  datatype Round = Round(joined: Option<int>, tunOk: bool, activity: int, pass: Keepalive.Pass)

  /** Where the loop stands: link, counters, the waits before reconnections so far, and
      whether it was left. */
  datatype Phase = Phase(link: Keepalive.Link, retry: Retry, waits: seq<int>, over: bool)

  /** attempt_reconnect on a lost link; a failure leaves the loop. */
  function Reconnect(st: Settings, p: Phase, r: Round): Phase {
    if !st.autoReconnect || p.retry.attempts >= st.maxReconnectAttempts then p.(over := true)
    else
      var (retry, slept) := Fail(st.maxReconnectAttempts, p.retry);
      match r.joined
      case None => Phase(p.link, retry, p.waits + [slept], true)
      case Some(now) => Phase(Keepalive.Link(now, now, false), Start, p.waits + [slept], !r.tunOk)
  }

  /** One turn. */
  function Turn(st: Settings, p: Phase, r: Round): Phase {
    if p.over then p
    else
      var q := if p.link.lost then Reconnect(st, p, r) else p;
      if q.over then q
      else if r.activity < 0 then q.(over := true)
      else q.(link := Keepalive.Turn(st.keepalive, q.link, r.pass))
  }

  /** The loop before turn i, in a session established at time t0. */
  function PhaseAt(st: Settings, t0: int, rounds: seq<Round>, i: nat): Phase
    requires i <= |rounds|
  {
    if i == 0 then Phase(Keepalive.Link(t0, t0, false), Start, [], false)
    else Turn(st, PhaseAt(st, t0, rounds, i - 1), rounds[i - 1])
  }

  // ---- Every reconnection is a first attempt ----

  predicate Retries(st: Settings) {
    st.autoReconnect && st.maxReconnectAttempts >= 1
  }

  /** Counters as at start-up, or left after one failed attempt; only one-second waits, and
      none at all unless the settings ask for them. */
  ghost predicate FirstAttempts(st: Settings, p: Phase) {
    && (p.retry == Start || (p.over && p.retry == After(st.maxReconnectAttempts, 1)))
    && (forall k :: 0 <= k < |p.waits| ==> p.waits[k] == 1)
    && (!Retries(st) ==> p.waits == [])
  }

  lemma {:induction false} AlwaysFirst(st: Settings, t0: int, rounds: seq<Round>, i: nat)
    requires i <= |rounds|
    ensures FirstAttempts(st, PhaseAt(st, t0, rounds, i))
  {
    if i > 0 {
      AlwaysFirst(st, t0, rounds, i - 1);
      assert After(st.maxReconnectAttempts, 1) == Fail(st.maxReconnectAttempts, Start).0;
    }
  }

  /** With any two limits of 1 or more the loop does the same in every turn. */
  lemma {:induction false} LimitIrrelevant(st: Settings, m: int, n: int, t0: int, rounds: seq<Round>, i: nat)
    requires m >= 1 && n >= 1 && i <= |rounds|
    ensures PhaseAt(st.(maxReconnectAttempts := m), t0, rounds, i)
            == PhaseAt(st.(maxReconnectAttempts := n), t0, rounds, i)
  {
    if i > 0 {
      LimitIrrelevant(st, m, n, t0, rounds, i - 1);
      AlwaysFirst(st.(maxReconnectAttempts := m), t0, rounds, i - 1);
    }
  }

  /** With a limit below 1 it does what it does without autoReconnect. */
  lemma {:induction false} NoLimitNoRetry(st: Settings, t0: int, rounds: seq<Round>, i: nat)
    requires st.maxReconnectAttempts < 1 && i <= |rounds|
    ensures PhaseAt(st, t0, rounds, i) == PhaseAt(st.(autoReconnect := false), t0, rounds, i)
  {
    if i > 0 {
      NoLimitNoRetry(st, t0, rounds, i - 1);
      AlwaysFirst(st, t0, rounds, i - 1);
    }
  }

  // ---- What happens after a loss ----

  /** A lost link is retried once, after one second, if the settings allow it at all. If the
      answer joins and TUN setup works the keepalive machine starts afresh and the loop goes
      on; otherwise, or when select fails, the loop is left. */
  lemma AfterLoss(st: Settings, t0: int, rounds: seq<Round>, i: nat)
    requires i < |rounds|
    requires var p := PhaseAt(st, t0, rounds, i); !p.over && p.link.lost
    ensures var p, p', r := PhaseAt(st, t0, rounds, i), PhaseAt(st, t0, rounds, i + 1), rounds[i];
            && p'.waits == (if Retries(st) then p.waits + [1] else p.waits)
            && (p'.over <==> !Retries(st) || r.joined.None? || !r.tunOk || r.activity < 0)
            && (!p'.over ==>
                  var anew := Keepalive.Link(r.joined.value, r.joined.value, false);
                  p'.link == Keepalive.Turn(st.keepalive, anew, r.pass))
  {
    AlwaysFirst(st, t0, rounds, i);
  }

  /** A link that is up is left alone but for its keepalive pass; only select ends the loop. */
  lemma WhileUp(st: Settings, t0: int, rounds: seq<Round>, i: nat)
    requires i < |rounds|
    requires var p := PhaseAt(st, t0, rounds, i); !p.over && !p.link.lost
    ensures var p, p', r := PhaseAt(st, t0, rounds, i), PhaseAt(st, t0, rounds, i + 1), rounds[i];
            && p'.waits == p.waits && p'.retry == p.retry
            && (p'.over <==> r.activity < 0)
            && (!p'.over ==> p'.link == Keepalive.Turn(st.keepalive, p.link, r.pass))
  {
  }

  lemma {:induction false} OverStays(st: Settings, t0: int, rounds: seq<Round>, i: nat, j: nat)
    requires i <= j <= |rounds| && PhaseAt(st, t0, rounds, i).over
    ensures PhaseAt(st, t0, rounds, j) == PhaseAt(st, t0, rounds, i)
    decreases j
  {
    if i < j {
      OverStays(st, t0, rounds, i, j - 1);
    }
  }

  // ---- Until a loss it is the keepalive machine ----

  ghost function Passes(rounds: seq<Round>): (ps: seq<Keepalive.Pass>)
    ensures |ps| == |rounds|
  {
    seq(|rounds|, i requires 0 <= i < |rounds| => rounds[i].pass)
  }

  /** As long as the machine over the passes is not lost, the link is that machine unless the
      loop was left, and nothing was retried. */
  lemma {:induction false} FollowsKeepalive(st: Settings, t0: int, rounds: seq<Round>, i: nat)
    requires i <= |rounds| && !Keepalive.At(st.keepalive, t0, Passes(rounds), i).lost
    ensures var p := PhaseAt(st, t0, rounds, i);
            && !p.link.lost && p.waits == [] && p.retry == Start
            && (!p.over ==> p.link == Keepalive.At(st.keepalive, t0, Passes(rounds), i))
  {
    if i > 0 {
      FollowsKeepalive(st, t0, rounds, i - 1);
    }
  }

  /** Timely passes, answered within the bound, keep the client connected for good. */
  lemma StaysConnected(st: Settings, t0: int, rounds: seq<Round>, lap: int, D: int, i: nat)
    requires i <= |rounds| && D >= 0 && Keepalive.Gap(st.keepalive, lap) + D <= st.keepalive.pongTimeout
    requires Keepalive.Timely(t0, Passes(rounds), lap) && Keepalive.Answered(st.keepalive, t0, Passes(rounds), D)
    ensures var p := PhaseAt(st, t0, rounds, i); !p.link.lost && p.waits == []
  {
    Keepalive.NeverLost(st.keepalive, t0, Passes(rounds), lap, D, i);
    FollowsKeepalive(st, t0, rounds, i);
  }
}
