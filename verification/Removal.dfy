/** Whose entry goes when one is removed by VPN address. The counter wraps around, so two
    clients can hold the same address, and remove_client frees the lowest slot under it. */
module Removal {
  import opened Bytes
  import opened Crypto
  import T = ClientTable
  import opened Session

  /** Entry i is the lowest active one under its VPN address. */
  ghost predicate Lowest(t: T.Table, i: nat)
    requires i < |t.slots|
  {
    forall j :: 0 <= j < i ==> !(t.slots[j].active && t.slots[j].vpnIp == t.slots[i].vpnIp)
  }

  lemma RemoveFreesIff(t: T.Table, ip: nat, i: nat)
    requires i < |t.slots| && t.slots[i].active
    ensures var t' := T.RemoveClient(t, ip);
            && |t'.slots| == |t.slots|
            && (!t'.slots[i].active <==> t.slots[i].vpnIp == ip && Lowest(t, i))
            && (t'.slots[i].active ==> t'.slots[i] == t.slots[i])
  {
    T.RemoveClientExact(t, ip, i);
  }

  /** A DISCONNECT of the peer in slot j frees the entry in slot i exactly when both hold the
      same VPN address and i is the lowest slot of it. */
  lemma LeaveFreesIff(s: State, i: nat, j: nat)
    requires T.Valid(s.clients) && i < |s.clients.slots| && j < |s.clients.slots|
    requires s.clients.slots[i].active && s.clients.slots[j].active
    ensures var t, t' := s.clients, Leave(s, s.clients.slots[j].addr).0.clients;
            && |t'.slots| == |t.slots|
            && (!t'.slots[i].active <==> t.slots[i].vpnIp == t.slots[j].vpnIp && Lowest(t, i))
  {
    T.KnownSlot(s.clients, j);
    RemoveFreesIff(s.clients, s.clients.slots[j].vpnIp, i);
  }

  lemma RemoveThins(t: T.Table, ip: nat)
    requires T.Valid(t)
    ensures T.Valid(T.RemoveClient(t, ip)) && T.Thins(t, T.RemoveClient(t, ip))
  {
    T.RemoveClientKeeps(t, ip);
  }

  /** Thinning a table loses a peer exactly when it loses the peer's slot. */
  lemma GoneIff(t: T.Table, t': T.Table, a: T.Addr)
    requires T.Valid(t) && T.Valid(t') && T.Knows(t, a) && T.Thins(t, t')
    ensures !T.Knows(t', a) <==> !t'.slots[T.SlotOfAddr(t.slots, a)].active
  {
    var i := T.SlotOfAddr(t.slots, a);
    if t'.slots[i].active {
      T.KnownSlot(t', i);
    }
    if T.Knows(t', a) {
      T.KnownSlot(t, T.SlotOfAddr(t'.slots, a));
    }
  }

  /** Removing by the address of a peer removes that peer exactly when its slot is the lowest
      of the address; otherwise another client loses its entry in its place. */
  lemma RemovedIff(t: T.Table, a: T.Addr)
    requires T.Valid(t) && T.Knows(t, a)
    ensures var i := T.SlotOfAddr(t.slots, a);
            !T.Knows(T.RemoveClient(t, t.slots[i].vpnIp), a) <==> Lowest(t, i)
  {
    var i := T.SlotOfAddr(t.slots, a);
    var ip := t.slots[i].vpnIp;
    var t' := T.RemoveClient(t, ip);
    RemoveThins(t, ip);
    RemoveFreesIff(t, ip, i);
    GoneIff(t, t', a);
  }

  /** So it is after the peer's own DISCONNECT. */
  lemma LeaverGoneIff(s: State, a: T.Addr)
    requires T.Valid(s.clients) && T.Knows(s.clients, a)
    ensures !T.Knows(Leave(s, a).0.clients, a) <==> Lowest(s.clients, T.SlotOfAddr(s.clients.slots, a))
  {
    RemovedIff(s.clients, a);
  }

  /** The same of a handshake that fails: the entry of the refused peer goes exactly when
      its slot is the lowest of its address in the table with the peer entered. */
  lemma RefusedGoneIff(c: Suite, s: State, a: T.Addr, pub: seq<byte>, now: int, id: nat)
    requires T.Valid(s.clients) && T.AddClient(s.clients, a, now, id).1 != 0
    requires SessionKey(c, s.keys.priv, pub).None?
    ensures var t := T.AddClient(s.clients, a, now, id).0;
            && T.Knows(t, a)
            && (!T.Knows(Connect(c, s, a, pub, now, id).0.clients, a) <==> Lowest(t, T.SlotOfAddr(t.slots, a)))
  {
    T.AddClientKeeps(s.clients, a, now, id);
    RemovedIff(T.AddClient(s.clients, a, now, id).0, a);
  }
}
