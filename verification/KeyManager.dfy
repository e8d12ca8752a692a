/** The enclave's key manager: an array of slots changed in place
    (VPN/src/enclave/key_manager.c). Each method is the function of KeyTable on the view. */
module KeyManager {
  import opened Bytes
  import opened Crypto
  import K = KeyTable

  lemma RemovedKeeps(k: K.Keys, ip: nat)
    requires K.Valid(k)
    ensures K.Valid(K.RemoveKey(k, ip))
  {
    K.RemoveKeyKeeps(k, ip);
  }

  class Manager {
    const keys: array<K.Entry>
    var count: int
    const priv: seq<byte>
    const pub: seq<byte>

    ghost function View(): K.Keys
      reads this, keys
    {
      K.Keys(keys[..], count, priv, pub)
    }

    ghost predicate Valid()
      reads this, keys
    {
      K.Valid(View()) && |pub| == KEY_SIZE
    }

    constructor (c: Suite, priv: seq<byte>)
      requires Lawful(c)
      ensures Valid() && View() == K.Init(priv, c.publicOf(priv)) && fresh(keys)
    {
      keys := new K.Entry[K.MAX_KEYS](_ => K.Entry(0, Zeros(KEY_SIZE), false));
      count := 0;
      this.priv := priv;
      this.pub := c.publicOf(priv);
      new;
      K.InitValid(priv, c.publicOf(priv));
      assert keys[..] == K.Init(priv, c.publicOf(priv)).slots;
    }

    method AddKey(ip: nat, key: seq<byte>) returns (ok: bool)
      requires Valid() && |key| == KEY_SIZE
      modifies this`count, keys
      ensures Valid() && View() == K.AddKey(old(View()), ip, key)
      ensures ok == !old(K.Full(View()))
    {
      var index := 0;
      while index < keys.Length && keys[index].active
        invariant index <= keys.Length
        invariant forall j :: 0 <= j < index ==> keys[j].active
      {
        index := index + 1;
      }
      assert index == K.FreeSlot(keys[..]);
      if index == keys.Length {
        return false;
      }
      K.AddKeyKeeps(View(), ip, key);
      keys[index] := K.Entry(ip, key, true);
      count := count + 1;
      return true;
    }

    method GetKey(ip: nat) returns (key: Option<seq<byte>>)
      requires Valid()
      ensures key == K.GetKey(View(), ip)
    {
      for i := 0 to keys.Length
        invariant forall j :: 0 <= j < i ==> !(keys[j].active && keys[j].vpnIp == ip)
      {
        if keys[i].active && keys[i].vpnIp == ip {
          assert i == K.SlotOf(keys[..], ip);
          return Some(keys[i].sessionKey);
        }
      }
      assert keys.Length == K.SlotOf(keys[..], ip);
      return None;
    }

    method RemoveKey(ip: nat)
      requires Valid()
      modifies this`count, keys
      ensures Valid() && View() == K.RemoveKey(old(View()), ip)
    {
      var i := 0;
      while i < keys.Length && !(keys[i].active && keys[i].vpnIp == ip)
        invariant i <= keys.Length
        invariant forall j :: 0 <= j < i ==> !(keys[j].active && keys[j].vpnIp == ip)
      {
        i := i + 1;
      }
      assert i == K.SlotOf(keys[..], ip);
      ghost var k := View();
      if i < keys.Length {
        keys[i] := keys[i].(sessionKey := Zeros(KEY_SIZE), active := false);
        count := count - 1;
        assert keys[..] == k.slots[i := keys[i]];
      }
      assert View() == K.RemoveKey(k, ip);
      RemovedKeeps(k, ip);
    }

    method PerformHandshake(c: Suite, ip: nat, clientPub: seq<byte>) returns (key: Option<seq<byte>>)
      requires Valid() && Lawful(c)
      modifies this`count, keys
      ensures Valid() && (View(), key) == K.Handshake(c, old(View()), ip, clientPub)
    {
      var secret := c.ecdh(priv, clientPub);
      if secret.None? {
        return None;
      }
      var sessionKey := c.kdf(secret.value);
      var _ := AddKey(ip, sessionKey);
      return Some(sessionKey);
    }
  }
}
