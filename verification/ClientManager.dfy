/** The server's client table: an array of slots changed in place
    (VPN/src/server/client_manager.c). Each method is the function of ClientTable on the
    view; clients.Length stands for the NULL a failed lookup returns. */
module ClientManager {
  import T = ClientTable

  lemma RemovedKeeps(t: T.Table, ip: nat)
    requires T.Valid(t)
    ensures T.Valid(T.RemoveClient(t, ip))
  {
    T.RemoveClientKeeps(t, ip);
  }

  lemma SweptKeeps(t: T.Table, now: int)
    requires T.Valid(t)
    ensures T.Valid(T.Sweep(t, now))
  {
    T.SweepExact(t, now);
  }

  class Manager {
    const clients: array<T.Entry>
    var count: int
    var nextIp: nat

    ghost function View(): T.Table
      reads this, clients
    {
      T.Table(clients[..], count, nextIp)
    }

    ghost predicate Valid()
      reads this, clients
    {
      T.Valid(View())
    }

    constructor ()
      ensures Valid() && View() == T.Init() && fresh(clients)
    {
      clients := new T.Entry[T.MAX_CLIENTS](_ => T.Entry(0, T.Addr(0, 0), 0, 0, false));
      count := 0;
      nextIp := T.FIRST_IP;
      new;
      T.InitValid();
      assert clients[..] == T.Init().slots;
    }

    method FindByVpnIp(ip: nat) returns (i: nat)
      ensures i == T.SlotOfIp(clients[..], ip)
    {
      i := 0;
      while i < clients.Length && !(clients[i].active && clients[i].vpnIp == ip)
        invariant i <= clients.Length
        invariant forall j :: 0 <= j < i ==> !(clients[j].active && clients[j].vpnIp == ip)
      {
        i := i + 1;
      }
    }

    method FindByAddr(a: T.Addr) returns (i: nat)
      ensures i == T.SlotOfAddr(clients[..], a)
    {
      i := 0;
      while i < clients.Length &&
            !(clients[i].active && clients[i].addr.ip == a.ip && clients[i].addr.port == a.port)
        invariant i <= clients.Length
        invariant forall j :: 0 <= j < i ==> !(clients[j].active && clients[j].addr == a)
      {
        i := i + 1;
      }
    }

    method UpdateActivity(i: nat, now: int)
      requires Valid() && i < clients.Length
      modifies clients
      ensures Valid() && View() == T.Touch(old(View()), i, now)
    {
      T.TouchKeeps(View(), i, now);
      clients[i] := clients[i].(lastSeen := now);
    }

    method FindFree() returns (i: nat)
      ensures i == T.FreeSlot(clients[..])
    {
      i := 0;
      while i < clients.Length && clients[i].active
        invariant i <= clients.Length
        invariant forall j :: 0 <= j < i ==> clients[j].active
      {
        i := i + 1;
      }
    }

    method AddClient(a: T.Addr, now: int, sessionId: nat) returns (ip: nat)
      requires Valid()
      modifies this`count, this`nextIp, clients
      ensures Valid() && (View(), ip) == T.AddClient(old(View()), a, now, sessionId)
    {
      if count >= T.MAX_CLIENTS {
        return 0;
      }
      var existing := FindByAddr(a);
      if existing < clients.Length {
        UpdateActivity(existing, now);
        return clients[existing].vpnIp;
      }
      ip := Enter(a, now, sessionId);
    }

    /** The rest of add_client: a fresh peer takes the next address and the first free slot. */
    method Enter(a: T.Addr, now: int, sessionId: nat) returns (ip: nat)
      requires Valid() && count < T.MAX_CLIENTS && !T.Knows(View(), a)
      modifies this`count, this`nextIp, clients
      ensures Valid() && (View(), ip) == T.AddClient(old(View()), a, now, sessionId)
    {
      ip := nextIp;
      if ip > T.LAST_IP {
        ip := T.FIRST_IP;
      }
      var index := FindFree();
      if index == clients.Length {
        return 0;
      }
      T.EnterKeeps(View(), index, T.Entry(ip, a, now, sessionId, true), ip + 1);
      clients[index] := T.Entry(ip, a, now, sessionId, true);
      count := count + 1;
      nextIp := ip + 1;
    }

    method RemoveClient(ip: nat)
      requires Valid()
      modifies this`count, clients
      ensures Valid() && View() == T.RemoveClient(old(View()), ip)
    {
      ghost var t := View();
      var i := FindByVpnIp(ip);
      if i < clients.Length {
        clients[i] := clients[i].(active := false);
        count := count - 1;
        assert clients[..] == t.slots[i := clients[i]];
      }
      assert View() == T.RemoveClient(t, ip);
      RemovedKeeps(t, ip);
    }

    method CheckTimeouts(now: int)
      requires Valid()
      modifies this`count, clients
      ensures Valid() && View() == T.Sweep(old(View()), now)
    {
      ghost var s := clients[..];
      for i := 0 to clients.Length
        invariant count == old(count) - T.ExpiredCount(s[..i], now)
        invariant forall j :: 0 <= j < i ==> clients[j] == T.Evict(s[j], now)
        invariant forall j :: i <= j < clients.Length ==> clients[j] == s[j]
      {
        assert s[..i + 1][..i] == s[..i];
        if clients[i].active {
          if now - clients[i].lastSeen > T.CLIENT_TIMEOUT {
            clients[i] := clients[i].(active := false);
            count := count - 1;
          }
        }
      }
      assert s[..clients.Length] == s;
      assert clients[..] == T.Sweep(old(View()), now).slots;
      SweptKeeps(old(View()), now);
    }
  }
}
