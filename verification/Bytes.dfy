/** Bytes and the big-endian (network order) integers every header is built from. */
module Bytes {
  type byte = x: int | 0 <= x < 256

  function Pow256(k: nat): (r: nat)
    ensures r > 0
  {
    if k == 0 then 1 else 256 * Pow256(k - 1)
  }

  /** The k low-order bytes of n, most significant first (htons, htonl, htobe64). */
  function ToBe(n: nat, k: nat): (b: seq<byte>)
    ensures |b| == k
  {
    if k == 0 then [] else ToBe(n / 256, k - 1) + [n % 256]
  }

  function FromBe(b: seq<byte>): (n: nat)
    ensures n < Pow256(|b|)
  {
    if b == [] then 0 else 256 * FromBe(b[..|b| - 1]) + b[|b| - 1]
  }

  /** ntoh(hton(n)) keeps exactly what fits in the field: n modulo its width. */
  lemma {:induction false} FromToBe(n: nat, k: nat)
    ensures FromBe(ToBe(n, k)) == n % Pow256(k)
  {
    if k != 0 {
      FromToBe(n / 256, k - 1);
      var b := ToBe(n, k);
      assert b[..k - 1] == ToBe(n / 256, k - 1);
      ModSplit(n, Pow256(k - 1));
    }
  }

  lemma ModSplit(n: nat, m: nat)
    requires m > 0
    ensures 256 * (n / 256 % m) + n % 256 == n % (256 * m)
  {
    var q := n / 256 / m;
    var r := 256 * (n / 256 % m) + n % 256;
    assert n / 256 == q * m + n / 256 % m;
    assert n == 256 * (n / 256) + n % 256;
    assert n == (256 * m) * q + r by {
      assert 256 * (q * m) == (256 * m) * q;
    }
    assert 0 <= r < 256 * m;
    RemainderUnique(n, 256 * m, q, r);
  }

  lemma RemainderUnique(n: nat, d: nat, q: int, r: nat)
    requires d > 0 && n == d * q + r && r < d
    ensures n % d == r && n / d == q
  {
    var q1, r1 := n / d, n % d;
    assert n == d * q1 + r1;
    assert d * (q - q1) == r1 - r;
    MulGap(d, q - q1);
  }

  lemma MulGap(d: int, k: int)
    requires 0 - d < d * k < d
    ensures k == 0
  {
    assert k >= 1 ==> d * k >= d * 1;
    assert k <= -1 ==> d * k <= 0 - d;
  }

  lemma {:induction false} ToFromBe(b: seq<byte>)
    ensures ToBe(FromBe(b), |b|) == b
  {
    if b != [] {
      ToFromBe(b[..|b| - 1]);
      assert FromBe(b) / 256 == FromBe(b[..|b| - 1]);
      assert b == b[..|b| - 1] + [b[|b| - 1]];
    }
  }

  lemma Widths()
    ensures Pow256(2) == 0x1_0000 && Pow256(4) == 0x1_0000_0000 && Pow256(8) == 0x1_0000_0000_0000_0000
  {
    assert Pow256(1) == 256 * Pow256(0);
    assert Pow256(2) == 256 * Pow256(1);
    assert Pow256(3) == 256 * Pow256(2);
    assert Pow256(4) == 256 * Pow256(3);
    assert Pow256(5) == 256 * Pow256(4);
    assert Pow256(6) == 256 * Pow256(5);
    assert Pow256(7) == 256 * Pow256(6);
    assert Pow256(8) == 256 * Pow256(7);
  }

  lemma Be16(n: nat)
    requires n < 0x1_0000
    ensures FromBe(ToBe(n, 2)) == n
  {
    FromToBe(n, 2);
    Widths();
  }

  lemma Be32(n: nat)
    requires n < 0x1_0000_0000
    ensures FromBe(ToBe(n, 4)) == n
  {
    FromToBe(n, 4);
    Widths();
  }

  lemma Be64(n: nat)
    requires n < 0x1_0000_0000_0000_0000
    ensures FromBe(ToBe(n, 8)) == n
  {
    FromToBe(n, 8);
    Widths();
  }
}
