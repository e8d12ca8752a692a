/** The primitives taken from libsodium, as functions with laws instead of bodies. */
module Crypto {
  import opened Bytes

  datatype Option<+T> = None | Some(value: T)

  const KEY_SIZE: nat := 32
  const NONCE_SIZE: nat := 12
  const MAC_SIZE: nat := 16

  function Zeros(n: nat): (z: seq<byte>)
    ensures |z| == n && forall i :: 0 <= i < n ==> z[i] == 0
  {
    seq(n, _ => 0)
  }

  /** publicOf and ecdh: Curve25519 (crypto_box_keypair, crypto_box_beforenm; ecdh refuses
      weak public keys). kdf: crypto_kdf_derive_from_key with subkey 1 and context
      VPN_SESS. seal and open: ChaCha20-Poly1305 without additional data. */
  datatype Suite = Suite(
    publicOf: seq<byte> -> seq<byte>,
    ecdh: (seq<byte>, seq<byte>) -> Option<seq<byte>>,
    kdf: seq<byte> -> seq<byte>,
    seal: (seq<byte>, seq<byte>, seq<byte>) -> seq<byte>,
    open: (seq<byte>, seq<byte>, seq<byte>) -> Option<seq<byte>>)

  /** Diffie-Hellman commutes (section 6.1 of RFC 7748), and opening undoes sealing, which
      adds exactly the tag (section 2.8 of RFC 8439). */
  ghost predicate Lawful(c: Suite) {
    && (forall a, b :: c.ecdh(a, c.publicOf(b)) == c.ecdh(b, c.publicOf(a)))
    && (forall a :: |c.publicOf(a)| == KEY_SIZE)
    && (forall x :: |c.kdf(x)| == KEY_SIZE)
    && (forall k, n, p :: |c.seal(k, n, p)| == |p| + MAC_SIZE)
    && (forall k, n, p :: c.open(k, n, c.seal(k, n, p)) == Some(p))
    && (forall k, n, x :: c.open(k, n, x).Some? ==> |x| == |c.open(k, n, x).value| + MAC_SIZE)
  }

  /** What either side derives from its own private key and the other's public key. */
  function SessionKey(c: Suite, priv: seq<byte>, pub: seq<byte>): Option<seq<byte>> {
    match c.ecdh(priv, pub)
    case None => None
    case Some(secret) => Some(c.kdf(secret))
  }

  lemma KeysAgree(c: Suite, a: seq<byte>, b: seq<byte>)
    requires Lawful(c)
    ensures SessionKey(c, a, c.publicOf(b)) == SessionKey(c, b, c.publicOf(a))
  {
    assert c.ecdh(a, c.publicOf(b)) == c.ecdh(b, c.publicOf(a));
  }

  /** A key cut from whatever it is made of. */
  function KeyFrom(x: seq<byte>): (key: seq<byte>)
    ensures |key| == KEY_SIZE
  {
    if |x| == KEY_SIZE then x else Zeros(KEY_SIZE)
  }

  function Ones(): (key: seq<byte>)
    ensures |key| == KEY_SIZE && key[0] == 1
  {
    seq(KEY_SIZE, _ => 1)
  }

  /** A suite in which every key is its own public key and a handshake tells whether the two
      are the same. */
  function Telling(): Suite {
    Suite(
      x => KeyFrom(x),
      (a, p) => Some(if KeyFrom(a) == KeyFrom(p) then Ones() else Zeros(KEY_SIZE)),
      x => KeyFrom(x),
      (_, _, p) => p + Zeros(MAC_SIZE),
      (_, _, x: seq<byte>) => if |x| < MAC_SIZE then None else Some(x[..|x| - MAC_SIZE]))
  }

  lemma TellingIsLawful()
    ensures Lawful(Telling())
  {
    var c := Telling();
    forall k, n, p ensures c.open(k, n, c.seal(k, n, p)) == Some(p) {
      assert (p + Zeros(MAC_SIZE))[..|p|] == p;
    }
  }

  /** The laws have a model, one in which handshakes with different key pairs give different
      session keys, so nothing below is assumed of an impossible suite. */
  lemma LawsAreConsistent()
    ensures exists c, priv, priv1, priv2 ::
              && Lawful(c)
              && SessionKey(c, priv, c.publicOf(priv1)).Some? && SessionKey(c, priv, c.publicOf(priv2)).Some?
              && SessionKey(c, priv, c.publicOf(priv1)) != SessionKey(c, priv, c.publicOf(priv2))
  {
    TellingIsLawful();
    var c := Telling();
    assert Ones()[0] != Zeros(KEY_SIZE)[0];
    assert SessionKey(c, Ones(), c.publicOf(Ones())) == Some(Ones());
    assert SessionKey(c, Ones(), c.publicOf(Zeros(KEY_SIZE))) == Some(Zeros(KEY_SIZE));
  }
}
