/** The server's table of connected clients, as a value (VPN/src/server/client_manager.c).
    VPN addresses are host-order numbers; on the wire they are their big-endian bytes. */
module ClientTable {
  import opened Slots

  const MAX_CLIENTS: nat := 254
  const CLIENT_TIMEOUT: int := 300
  const FIRST_IP: nat := 0x0a080002
  const LAST_IP: nat := 0x0a0800ff

  datatype Addr = Addr(ip: nat, port: nat)

  datatype Entry = Entry(vpnIp: nat, addr: Addr, lastSeen: int, sessionId: nat, active: bool)

  datatype Table = Table(slots: seq<Entry>, count: int, nextIp: nat)

  function Init(): Table {
    Table(seq(MAX_CLIENTS, _ => Entry(0, Addr(0, 0), 0, 0, false)), 0, FIRST_IP)
  }

  function FreeSlot(s: seq<Entry>): (i: nat)
    ensures i <= |s|
    ensures forall j :: 0 <= j < i ==> s[j].active
    ensures i < |s| ==> !s[i].active
  {
    First(s, (e: Entry) => !e.active)
  }

  function SlotOfIp(s: seq<Entry>, ip: nat): (i: nat)
    ensures i <= |s|
    ensures forall j :: 0 <= j < i ==> !(s[j].active && s[j].vpnIp == ip)
    ensures i < |s| ==> s[i].active && s[i].vpnIp == ip
  {
    First(s, (e: Entry) => e.active && e.vpnIp == ip)
  }

  function SlotOfAddr(s: seq<Entry>, a: Addr): (i: nat)
    ensures i <= |s|
    ensures forall j :: 0 <= j < i ==> !(s[j].active && s[j].addr == a)
    ensures i < |s| ==> s[i].active && s[i].addr == a
  {
    First(s, (e: Entry) => e.active && e.addr == a)
  }

  predicate Knows(t: Table, a: Addr) {
    SlotOfAddr(t.slots, a) < |t.slots|
  }

  /** The address the next fresh client gets. */
  function NextIp(t: Table): nat {
    if t.nextIp > LAST_IP then FIRST_IP else t.nextIp
  }

  function Touch(t: Table, i: nat, now: int): Table
    requires i < |t.slots|
  {
    t.(slots := t.slots[i := t.slots[i].(lastSeen := now)])
  }

  /** add_client: 0 reports a refusal. A full table refuses a known address too. */
  function AddClient(t: Table, a: Addr, now: int, sessionId: nat): (Table, nat) {
    if t.count >= MAX_CLIENTS then (t, 0)
    else
      var known := SlotOfAddr(t.slots, a);
      if known < |t.slots| then (Touch(t, known, now), t.slots[known].vpnIp)
      else
        var ip, free := NextIp(t), FreeSlot(t.slots);
        if free == |t.slots| then (t, 0)
        else (Table(t.slots[free := Entry(ip, a, now, sessionId, true)], t.count + 1, ip + 1), ip)
  }

  /** remove_client: frees the lowest slot holding the address. */
  function RemoveClient(t: Table, ip: nat): Table {
    var i := SlotOfIp(t.slots, ip);
    if i == |t.slots| then t
    else t.(slots := t.slots[i := t.slots[i].(active := false)], count := t.count - 1)
  }

  predicate Expired(e: Entry, now: int) {
    e.active && now - e.lastSeen > CLIENT_TIMEOUT
  }

  function Evict(e: Entry, now: int): Entry {
    if Expired(e, now) then e.(active := false) else e
  }

  function ExpiredCount(s: seq<Entry>, now: int): nat {
    if s == [] then 0
    else ExpiredCount(s[..|s| - 1], now) + if Expired(s[|s| - 1], now) then 1 else 0
  }

  /** check_client_timeouts. */
  function Sweep(t: Table, now: int): Table {
    t.(slots := seq(|t.slots|, i requires 0 <= i < |t.slots| => Evict(t.slots[i], now)),
       count := t.count - ExpiredCount(t.slots, now))
  }

  // ---- The table invariant ----

  ghost function Tag(e: Entry): multiset<nat> {
    if e.active then multiset{e.vpnIp} else multiset{}
  }

  ghost function ExpiredTag(now: int): Entry -> multiset<nat> {
    (e: Entry) => if Expired(e, now) then multiset{e.vpnIp} else multiset{}
  }

  /** VPN addresses of the active clients, with multiplicity: after the counter has
      wrapped around two clients can hold the same one. */
  ghost function Ips(t: Table): multiset<nat> {
    Tally(t.slots, Tag)
  }

  ghost function EvictedIps(t: Table, now: int): multiset<nat> {
    Tally(t.slots, ExpiredTag(now))
  }

  ghost predicate DistinctAddrs(s: seq<Entry>) {
    forall i, j :: 0 <= i < j < |s| && s[i].active && s[j].active ==> s[i].addr != s[j].addr
  }

  ghost predicate Valid(t: Table) {
    && |t.slots| == MAX_CLIENTS
    && t.count == |Ips(t)|
    && DistinctAddrs(t.slots)
    && FIRST_IP <= t.nextIp <= LAST_IP + 1
    && (forall i :: 0 <= i < MAX_CLIENTS && t.slots[i].active ==> FIRST_IP <= t.slots[i].vpnIp <= LAST_IP)
  }

  lemma InitValid()
    ensures Valid(Init()) && Ips(Init()) == multiset{}
  {
    TallyEmpty(Init().slots, Tag);
  }

  /** The "No available slot" branch is dead: the count says how many slots are active. */
  lemma RoomIff(t: Table)
    requires Valid(t)
    ensures 0 <= t.count <= MAX_CLIENTS
    ensures t.count < MAX_CLIENTS <==> FreeSlot(t.slots) < |t.slots|
  {
    TallySize(t.slots, Tag);
  }

  lemma TouchKeeps(t: Table, i: nat, now: int)
    requires Valid(t) && i < |t.slots|
    ensures Valid(Touch(t, i, now)) && Ips(Touch(t, i, now)) == Ips(t)
  {
    TallySame(t.slots, i, t.slots[i].(lastSeen := now), Tag);
    var t' := Touch(t, i, now);
    assert forall j :: 0 <= j < |t.slots| ==> t'.slots[j] == t.slots[j].(lastSeen := t'.slots[j].lastSeen);
  }

  lemma AddressIff(t: Table, ip: nat)
    ensures SlotOfIp(t.slots, ip) < |t.slots| <==> ip in Ips(t)
  {
    var i := SlotOfIp(t.slots, ip);
    if i < |t.slots| {
      TallyHas(t.slots, i, Tag);
      assert ip in Tag(t.slots[i]);
    } else if ip in Ips(t) {
      var j := TallySource(t.slots, ip, Tag);
      assert false;
    }
  }

  /** In a valid table an address names one slot. */
  lemma KnownSlot(t: Table, i: nat)
    requires Valid(t) && i < |t.slots| && t.slots[i].active
    ensures SlotOfAddr(t.slots, t.slots[i].addr) == i
  {
  }

  /** Entering a client in a free slot. */
  lemma EnterKeeps(t: Table, free: nat, e: Entry, next: nat)
    requires Valid(t) && free < |t.slots| && !t.slots[free].active
    requires e.active && FIRST_IP <= e.vpnIp <= LAST_IP && FIRST_IP <= next <= LAST_IP + 1
    requires !Knows(t, e.addr)
    ensures var t' := Table(t.slots[free := e], t.count + 1, next);
            Valid(t') && Ips(t') == Ips(t) + multiset{e.vpnIp} && SlotOfAddr(t'.slots, e.addr) == free
  {
    var t' := Table(t.slots[free := e], t.count + 1, next);
    TallyUpdate(t.slots, free, e, Tag);
    assert Ips(t') == Ips(t) + multiset{e.vpnIp};
    assert DistinctAddrs(t'.slots);
    KnownSlot(t', free);
  }

  /** add_client refuses exactly when the count is at capacity; otherwise a known address
      keeps its VPN address and a new one is entered under the next. */
  lemma AddClientKeeps(t: Table, a: Addr, now: int, sessionId: nat)
    requires Valid(t)
    ensures var (t', ip) := AddClient(t, a, now, sessionId);
            && Valid(t')
            && (ip == 0 <==> t.count == MAX_CLIENTS)
            && (ip == 0 ==> t' == t)
            && (ip != 0 ==> Knows(t', a) && t'.slots[SlotOfAddr(t'.slots, a)].vpnIp == ip
                            && t'.slots[SlotOfAddr(t'.slots, a)].lastSeen == now)
            && Ips(t') == if ip == 0 || Knows(t, a) then Ips(t) else Ips(t) + multiset{ip}
  {
    RoomIff(t);
    if t.count < MAX_CLIENTS {
      var known := SlotOfAddr(t.slots, a);
      if known < |t.slots| {
        TouchKeeps(t, known, now);
        KnownSlot(Touch(t, known, now), known);
      } else {
        EnterKeeps(t, FreeSlot(t.slots), Entry(NextIp(t), a, now, sessionId, true), NextIp(t) + 1);
      }
    }
  }

  lemma RemoveClientKeeps(t: Table, ip: nat)
    requires Valid(t)
    ensures Valid(RemoveClient(t, ip))
    ensures Ips(RemoveClient(t, ip)) == Ips(t) - multiset{ip}
  {
    AddressIff(t, ip);
    var i := SlotOfIp(t.slots, ip);
    if i < |t.slots| {
      TallyUpdate(t.slots, i, t.slots[i].(active := false), Tag);
      assert Ips(t) == Ips(RemoveClient(t, ip)) + multiset{ip};
    }
  }

  /** remove_client frees the lowest slot of the address and changes no other entry. */
  lemma RemoveClientExact(t: Table, ip: nat, i: nat)
    requires i < |t.slots|
    ensures var t' := RemoveClient(t, ip);
            && |t'.slots| == |t.slots| && t'.nextIp == t.nextIp
            && t'.slots[i] == if t.slots[i].active && t.slots[i].vpnIp == ip
                                 && (forall j :: 0 <= j < i ==> !(t.slots[j].active && t.slots[j].vpnIp == ip))
                              then t.slots[i].(active := false) else t.slots[i]
  {
    var low := SlotOfIp(t.slots, ip);
    assert low < i ==> t.slots[low].active && t.slots[low].vpnIp == ip;
  }

  /** add_client changes one entry at most: the known peer's clock, or the lowest free slot. */
  lemma AddClientExact(t: Table, a: Addr, now: int, sessionId: nat, i: nat)
    requires Valid(t) && t.count < MAX_CLIENTS && i < |t.slots|
    ensures var (t', ip) := AddClient(t, a, now, sessionId);
            && |t'.slots| == |t.slots|
            && t'.slots[i] ==
               if t.slots[i].active && t.slots[i].addr == a then t.slots[i].(lastSeen := now)
               else if !Knows(t, a) && !t.slots[i].active && (forall j :: 0 <= j < i ==> t.slots[j].active)
               then Entry(ip, a, now, sessionId, true)
               else t.slots[i]
  {
    RoomIff(t);
    if t.slots[i].active && t.slots[i].addr == a {
      KnownSlot(t, i);
    }
  }

  lemma {:induction false} ExpiredCountIs(s: seq<Entry>, now: int)
    ensures ExpiredCount(s, now) == |Tally(s, ExpiredTag(now))|
  {
    if s != [] {
      ExpiredCountIs(s[..|s| - 1], now);
    }
  }

  /** A sweep deactivates exactly the clients silent for more than the timeout, lowers the
      count by their number, and changes no other entry. */
  lemma SweepExact(t: Table, now: int)
    requires Valid(t)
    ensures Valid(Sweep(t, now))
    ensures Ips(t) == Ips(Sweep(t, now)) + EvictedIps(t, now)
    ensures Sweep(t, now).count == t.count - |EvictedIps(t, now)|
    ensures forall i :: 0 <= i < MAX_CLIENTS ==>
              var e, e' := t.slots[i], Sweep(t, now).slots[i];
              && (e'.active <==> e.active && now <= e.lastSeen + CLIENT_TIMEOUT)
              && e' == e.(active := e'.active)
  {
    ExpiredCountIs(t.slots, now);
    SweepIps(t, now);
    var t' := Sweep(t, now);
    assert forall i :: 0 <= i < MAX_CLIENTS ==> t'.slots[i] == Evict(t.slots[i], now);
    assert |Ips(t)| == |Ips(t')| + |EvictedIps(t, now)|;
  }

  lemma SweepIps(t: Table, now: int)
    ensures Ips(t) == Ips(Sweep(t, now)) + EvictedIps(t, now)
  {
    TallySplit(t.slots, Tag, Sweep(t, now).slots, Tag, ExpiredTag(now));
  }

  /** t' came from t without entering anyone: every active slot was active before, for the
      same client under the same VPN address and session id. */
  ghost predicate Thins(t: Table, t': Table) {
    && |t'.slots| == |t.slots|
    && t'.nextIp == t.nextIp
    && forall i :: 0 <= i < |t.slots| && t'.slots[i].active ==>
         && t.slots[i].active && t'.slots[i].vpnIp == t.slots[i].vpnIp
         && t'.slots[i].addr == t.slots[i].addr && t'.slots[i].sessionId == t.slots[i].sessionId
  }

  /** add_client makes its own peer known and nobody else. */
  lemma AddClientKnows(t: Table, a: Addr, now: int, sessionId: nat, b: Addr)
    requires Valid(t) && t.count < MAX_CLIENTS
    ensures Knows(AddClient(t, a, now, sessionId).0, b) <==> Knows(t, b) || b == a
    ensures AddClient(t, a, now, sessionId).0.count == t.count + if Knows(t, a) then 0 else 1
  {
    RoomIff(t);
    var t' := AddClient(t, a, now, sessionId).0;
    var x := if Knows(t, a) then SlotOfAddr(t.slots, a) else FreeSlot(t.slots);
    assert t'.slots[x].active && t'.slots[x].addr == a;
    assert forall j :: 0 <= j < |t.slots| && j != x ==> t'.slots[j] == t.slots[j];
    if Knows(t, b) && b != a {
      assert t'.slots[SlotOfAddr(t.slots, b)] == t.slots[SlotOfAddr(t.slots, b)];
    }
  }
}
