/** Reconnecting with exponential backoff (attempt_reconnect in VPN/src/client/vpn_client.c). */
module Backoff {
  const INITIAL_BACKOFF: int := 1
  const MAX_BACKOFF: int := 60

  datatype Retry = Retry(attempts: int, backoff: int)

  /** One attempt whose connection fails: the counters after it, and the seconds waited, or
      no wait at all once the limit is reached. */
  function Fail(limit: int, r: Retry): (Retry, int) {
    if r.attempts >= limit then (r, 0)
    else
      (Retry(r.attempts + 1, if 2 * r.backoff > MAX_BACKOFF then MAX_BACKOFF else 2 * r.backoff), r.backoff)
  }

  const Start: Retry := Retry(0, INITIAL_BACKOFF)

  /** The counters after k failures in a row. */
  function After(limit: int, k: nat): Retry {
    if k == 0 then Start else Fail(limit, After(limit, k - 1)).0
  }

  function Waited(limit: int, k: nat): int {
    if k == 0 then 0 else Waited(limit, k - 1) + Fail(limit, After(limit, k - 1)).1
  }

  function Pow2(k: nat): nat {
    if k == 0 then 1 else 2 * Pow2(k - 1)
  }

  /** The powers reach the cap at the sixth doubling and stay above it. */
  lemma {:induction false} Pow2Cap(k: nat)
    ensures k < 6 ==> Pow2(k) <= 32
    ensures k >= 6 ==> Pow2(k) >= 64
  {
    if k > 6 {
      Pow2Cap(k - 1);
    } else {
      assert Pow2(1) == 2 && Pow2(2) == 4 && Pow2(3) == 8 && Pow2(4) == 16 && Pow2(5) == 32 && Pow2(6) == 64;
    }
  }

  function Min(a: int, b: int): int {
    if a < b then a else b
  }

  /** Attempt k + 1 waits 2^k seconds, capped at 60, as long as the limit allows it; the
      attempt counter never passes the limit. */
  lemma {:induction false} BackoffDoubles(limit: nat, k: nat)
    ensures After(limit, k) == if k <= limit then Retry(k, Min(Pow2(k), 60)) else Retry(limit, Min(Pow2(limit), 60))
    ensures Fail(limit, After(limit, k)).1 == if k < limit then Min(Pow2(k), 60) else 0
  {
    if k > 0 {
      BackoffDoubles(limit, k - 1);
      Pow2Cap(k - 1);
      Pow2Cap(k);
    }
  }

  /** Total wait of k failures: 2^k - 1 seconds up to the sixth, a minute more for each
      after that, and nothing beyond the limit. */
  lemma {:induction false} TotalWait(limit: nat, k: nat)
    ensures var n := if k < limit then k else limit;
            Waited(limit, k) == if n <= 6 then Pow2(n) - 1 else 63 + 60 * (n - 6)
  {
    if k > 0 {
      TotalWait(limit, k - 1);
      BackoffDoubles(limit, k - 1);
      Pow2Cap(k - 1);
      Pow2Cap(k);
    }
  }
}
