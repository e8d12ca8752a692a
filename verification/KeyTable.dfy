/** The enclave's table of session keys, as a value (VPN/src/enclave/key_manager.c). */
module KeyTable {
  import opened Bytes
  import opened Crypto
  import opened Slots

  const MAX_KEYS: nat := 256

  datatype Entry = Entry(vpnIp: nat, sessionKey: seq<byte>, active: bool)

  datatype Keys = Keys(slots: seq<Entry>, count: int, priv: seq<byte>, pub: seq<byte>)

  function Init(priv: seq<byte>, pub: seq<byte>): Keys {
    Keys(seq(MAX_KEYS, _ => Entry(0, Zeros(KEY_SIZE), false)), 0, priv, pub)
  }

  function FreeSlot(s: seq<Entry>): (i: nat)
    ensures i <= |s|
    ensures forall j :: 0 <= j < i ==> s[j].active
    ensures i < |s| ==> !s[i].active
  {
    First(s, (e: Entry) => !e.active)
  }

  function SlotOf(s: seq<Entry>, ip: nat): (i: nat)
    ensures i <= |s|
    ensures forall j :: 0 <= j < i ==> !(s[j].active && s[j].vpnIp == ip)
    ensures i < |s| ==> s[i].active && s[i].vpnIp == ip
  {
    First(s, (e: Entry) => e.active && e.vpnIp == ip)
  }

  predicate Full(k: Keys) {
    FreeSlot(k.slots) == |k.slots|
  }

  /** add_key: takes the first free slot; an existing key for the address stays. */
  function AddKey(k: Keys, ip: nat, key: seq<byte>): Keys {
    var i := FreeSlot(k.slots);
    if i == |k.slots| then k
    else k.(slots := k.slots[i := Entry(ip, key, true)], count := k.count + 1)
  }

  function GetKey(k: Keys, ip: nat): Option<seq<byte>> {
    var i := SlotOf(k.slots, ip);
    if i == |k.slots| then None else Some(k.slots[i].sessionKey)
  }

  /** remove_key: wipes and frees the lowest slot holding the address. */
  function RemoveKey(k: Keys, ip: nat): Keys {
    var i := SlotOf(k.slots, ip);
    if i == |k.slots| then k
    else k.(slots := k.slots[i := k.slots[i].(sessionKey := Zeros(KEY_SIZE), active := false)],
            count := k.count - 1)
  }

  /** perform_handshake: derives the session key and stores it if there is room; the
      outcome of the store is ignored. */
  function Handshake(c: Suite, k: Keys, ip: nat, clientPub: seq<byte>): (Keys, Option<seq<byte>>) {
    match SessionKey(c, k.priv, clientPub)
    case None => (k, None)
    case Some(key) => (AddKey(k, ip, key), Some(key))
  }

  // ---- The table invariant ----

  ghost function Tag(e: Entry): multiset<nat> {
    if e.active then multiset{e.vpnIp} else multiset{}
  }

  /** Addresses of the active keys, with multiplicity. */
  ghost function Ips(k: Keys): multiset<nat> {
    Tally(k.slots, Tag)
  }

  ghost predicate Valid(k: Keys) {
    && |k.slots| == MAX_KEYS
    && k.count == |Ips(k)|
    && (forall i :: 0 <= i < MAX_KEYS ==> |k.slots[i].sessionKey| == KEY_SIZE)
    && (forall i :: 0 <= i < MAX_KEYS && !k.slots[i].active ==> k.slots[i].sessionKey == Zeros(KEY_SIZE))
  }

  lemma InitValid(priv: seq<byte>, pub: seq<byte>)
    ensures Valid(Init(priv, pub)) && Ips(Init(priv, pub)) == multiset{}
  {
    TallyEmpty(Init(priv, pub).slots, Tag);
  }

  /** The table is full exactly when its count says so. */
  lemma FullIff(k: Keys)
    requires Valid(k)
    ensures 0 <= k.count <= MAX_KEYS
    ensures Full(k) <==> k.count == MAX_KEYS
  {
    TallySize(k.slots, Tag);
  }

  lemma AddKeyKeeps(k: Keys, ip: nat, key: seq<byte>)
    requires Valid(k) && |key| == KEY_SIZE
    ensures Valid(AddKey(k, ip, key))
    ensures Ips(AddKey(k, ip, key)) == if Full(k) then Ips(k) else Ips(k) + multiset{ip}
  {
    var i := FreeSlot(k.slots);
    if i < |k.slots| {
      TallyUpdate(k.slots, i, Entry(ip, key, true), Tag);
      assert Tag(k.slots[i]) == multiset{};
      assert Ips(AddKey(k, ip, key)) == Ips(k) + multiset{ip};
    }
  }

  lemma RemoveKeyKeeps(k: Keys, ip: nat)
    requires Valid(k)
    ensures Valid(RemoveKey(k, ip))
    ensures Ips(RemoveKey(k, ip)) == Ips(k) - multiset{ip}
  {
    FoundIff(k, ip);
    var i := SlotOf(k.slots, ip);
    if i < |k.slots| {
      var e := k.slots[i].(sessionKey := Zeros(KEY_SIZE), active := false);
      TallyUpdate(k.slots, i, e, Tag);
      assert Ips(k) == Ips(RemoveKey(k, ip)) + multiset{ip};
    }
  }

  /** The "Key not found" branch is taken exactly for addresses outside Ips. */
  lemma FoundIff(k: Keys, ip: nat)
    ensures GetKey(k, ip).Some? <==> ip in Ips(k)
  {
    var i := SlotOf(k.slots, ip);
    if i < |k.slots| {
      TallyHas(k.slots, i, Tag);
      assert ip in Tag(k.slots[i]);
    } else if ip in Ips(k) {
      var j := TallySource(k.slots, ip, Tag);
      assert false;
    }
  }

  // ---- What the table means: a finite map, and where it stops being one ----

  ghost function Meaning(k: Keys): map<nat, seq<byte>> {
    map ip | ip in Ips(k) && GetKey(k, ip).Some? :: GetKey(k, ip).value
  }

  /** Lookups after add_key, for every table with room. The new key is the one returned
      exactly when its slot lies below every slot already holding the address, unless
      the key returned before was the same. */
  lemma LookupAfterAdd(k: Keys, ip: nat, key: seq<byte>, other: nat)
    requires !Full(k)
    ensures other != ip ==> GetKey(AddKey(k, ip, key), other) == GetKey(k, other)
    ensures GetKey(AddKey(k, ip, key), ip) ==
            if FreeSlot(k.slots) < SlotOf(k.slots, ip) then Some(key) else GetKey(k, ip)
    ensures GetKey(AddKey(k, ip, key), ip) == Some(key) <==>
            FreeSlot(k.slots) < SlotOf(k.slots, ip) || GetKey(k, ip) == Some(key)
  {
    var f, g := FreeSlot(k.slots), SlotOf(k.slots, ip);
    var k' := AddKey(k, ip, key);
    assert forall j :: 0 <= j < |k.slots| && j != f ==> k'.slots[j] == k.slots[j];
    assert k'.slots[f] == Entry(ip, key, true);
    assert SlotOf(k'.slots, ip) == if f < g then f else g;
    assert other != ip ==> SlotOf(k'.slots, other) == SlotOf(k.slots, other);
  }

  lemma LookupAfterRemove(k: Keys, ip: nat, other: nat)
    requires other != ip
    ensures GetKey(RemoveKey(k, ip), other) == GetKey(k, other)
  {
    var g := SlotOf(k.slots, ip);
    var k' := RemoveKey(k, ip);
    if g < |k.slots| {
      assert forall j :: 0 <= j < |k.slots| && j != g ==> k'.slots[j] == k.slots[j];
      assert !k'.slots[g].active;
      assert SlotOf(k'.slots, other) == SlotOf(k.slots, other);
    }
  }

  /** Removing the lowest key of an address uncovers the next one, or none. */
  lemma RemoveUncovers(k: Keys, ip: nat, j: nat)
    requires SlotOf(k.slots, ip) < j <= |k.slots|
    requires forall i :: SlotOf(k.slots, ip) < i < j ==> !(k.slots[i].active && k.slots[i].vpnIp == ip)
    requires j < |k.slots| ==> k.slots[j].active && k.slots[j].vpnIp == ip
    ensures GetKey(RemoveKey(k, ip), ip) == if j == |k.slots| then None else Some(k.slots[j].sessionKey)
  {
    var k' := RemoveKey(k, ip);
    assert forall i :: 0 <= i < |k.slots| && i != SlotOf(k.slots, ip) ==> k'.slots[i] == k.slots[i];
    assert SlotOf(k'.slots, ip) == j;
  }

  /** On an address without a key, add_key is map insertion. */
  lemma AddRefinesMap(k: Keys, ip: nat, key: seq<byte>)
    requires Valid(k) && |key| == KEY_SIZE && !Full(k) && ip !in Ips(k)
    ensures Meaning(AddKey(k, ip, key)) == Meaning(k)[ip := key]
  {
    AddKeyKeeps(k, ip, key);
    FoundIff(k, ip);
    var k' := AddKey(k, ip, key);
    LookupAfterAdd(k, ip, key, ip);
    forall a ensures a in Meaning(k') <==> a in Meaning(k)[ip := key] {
      FoundIff(k', a);
      FoundIff(k, a);
    }
    forall a | a in Meaning(k') ensures Meaning(k')[a] == Meaning(k)[ip := key][a] {
      LookupAfterAdd(k, ip, key, a);
    }
  }

  /** On an address with at most one key, remove_key is map deletion. */
  lemma RemoveRefinesMap(k: Keys, ip: nat)
    requires Valid(k) && Ips(k)[ip] <= 1
    ensures Meaning(RemoveKey(k, ip)) == Meaning(k) - {ip}
  {
    RemoveKeyKeeps(k, ip);
    var k' := RemoveKey(k, ip);
    forall a ensures a in Meaning(k') <==> a in Meaning(k) - {ip} {
      FoundIff(k', a);
      FoundIff(k, a);
    }
    forall a | a in Meaning(k') ensures Meaning(k')[a] == (Meaning(k) - {ip})[a] {
      LookupAfterRemove(k, ip, a);
    }
  }
}
