/** Internal addresses of virtual machines: first fit over 10.8.0.9 to 10.8.0.99
    (allocateInternalIp, createVm and deleteVm of VmServiceImpl.java). */
module VmAddress {
  import opened Crypto
  import opened Decimals

  const FIRST: nat := 9
  const LAST: nat := 99
  const CAPACITY: nat := 91

  function Candidate(i: nat): string {
    "10.8.0." + Decimal(i)
  }

  /** Addresses of the subnet, one for each host number, which can be read off them. */
  lemma CandidatesDiffer(i: nat, j: nat)
    ensures Candidate(i) == Candidate(j) <==> i == j
    ensures |Candidate(i)| > 7 && Candidate(i)[..7] == "10.8.0." && Value(Candidate(i)[7..]) == i
  {
    DecimalInverse(i);
    assert Candidate(i)[7..] == Decimal(i);
    if Candidate(i) == Candidate(j) {
      assert Candidate(i)[7..] == Decimal(i) && Candidate(j)[7..] == Decimal(j);
      DecimalInverse(i);
      DecimalInverse(j);
    }
  }

  /** The ends of the range, written out. */
  lemma Ends()
    ensures Candidate(FIRST) == "10.8.0.9" && Candidate(10) == "10.8.0.10" && Candidate(LAST) == "10.8.0.99"
  {
    assert Decimal(1) == "1" && Decimal(9) == "9" && Decimal(10) == Decimal(1) + "0" && Decimal(99) == Decimal(9) + "9";
  }

  // ---- The repository and its steps ----

  /** Live machines by id, with their addresses, and the next id the database gives out. */
  datatype State = State(vms: map<nat, string>, nextId: nat)

  /** What a call meets: whether the member exists and Proxmox does its part. */
  datatype Event = Create(memberFound: bool, proxmoxOk: bool) | Delete(id: nat, proxmoxOk: bool)

  /** Least host number from i on that is not in use. */
  function Least(used: set<string>, i: nat): (r: Option<nat>)
    requires FIRST <= i <= LAST + 1
    ensures r.Some? ==> i <= r.value <= LAST && Candidate(r.value) !in used
                        && forall j :: i <= j < r.value ==> Candidate(j) in used
    ensures r.None? <==> forall j :: i <= j <= LAST ==> Candidate(j) in used
    decreases LAST + 1 - i
  {
    if i > LAST then None
    else if Candidate(i) !in used then Some(i)
    else Least(used, i + 1)
  }

  /** The state after a call; a call that throws changes nothing. */
  function Step(s: State, e: Event): State {
    match e
    case Create(memberFound, proxmoxOk) =>
      var host := Least(s.vms.Values, FIRST);
      if !memberFound || host.None? || !proxmoxOk then s
      else State(s.vms[s.nextId := Candidate(host.value)], s.nextId + 1)
    case Delete(id, proxmoxOk) =>
      if id !in s.vms || !proxmoxOk then s else s.(vms := s.vms - {id})
  }

  function Run(events: seq<Event>): State {
    if events == [] then State(map[], 1) else Step(Run(events[..|events| - 1]), events[|events| - 1])
  }

  ghost predicate InRange(ip: string) {
    exists i :: 9 <= i <= 99 && ip == Candidate(i)
  }

  ghost predicate Sound(s: State) {
    && (forall id :: id in s.vms ==> id < s.nextId && InRange(s.vms[id]))
    && (forall x, y :: x in s.vms && y in s.vms && s.vms[x] == s.vms[y] ==> x == y)
  }

  /** Over every run, live machines hold pairwise different addresses of the range. */
  lemma {:induction false} RunSound(events: seq<Event>)
    ensures Sound(Run(events))
  {
    if events != [] {
      RunSound(events[..|events| - 1]);
    }
  }

  // ---- When the range runs out ----

  ghost function Range(n: nat): set<string> {
    set i | FIRST <= i < FIRST + n :: Candidate(i)
  }

  lemma {:induction false} RangeSize(n: nat)
    ensures |Range(n)| == n
  {
    if n > 0 {
      RangeSize(n - 1);
      var c := Candidate(FIRST + n - 1);
      forall i | FIRST <= i < FIRST + n - 1 ensures Candidate(i) != c {
        CandidatesDiffer(i, FIRST + n - 1);
      }
      assert Range(n) == Range(n - 1) + {c};
      assert c !in Range(n - 1);
    }
  }

  lemma {:induction false} ValuesSize(m: map<nat, string>)
    requires forall x, y :: x in m && y in m && m[x] == m[y] ==> x == y
    ensures |m.Values| == |m|
  {
    if m != map[] {
      var x :| x in m;
      var m' := m - {x};
      assert m'.Keys == m.Keys - {x};
      ValuesSize(m');
      forall v | v in m.Values ensures v in m'.Values + {m[x]} {
        var k :| k in m && m[k] == v;
        assert k != x ==> k in m' && m'[k] == v;
      }
      assert m.Values == m'.Values + {m[x]};
      assert m[x] !in m'.Values;
    }
  }

  lemma SubsetFull(a: set<string>, b: set<string>)
    requires a <= b && |a| == |b|
    ensures a == b
  {
    assert |b - a| == |b| - |a|;
  }

  /** Allocation fails, whatever creates and deletes came before, exactly when 91 machines
      are live; otherwise it takes the least free address. */
  lemma AllocationFailsIff(events: seq<Event>)
    ensures var s := Run(events);
            && |s.vms| <= 91
            && (Least(s.vms.Values, 9).None? <==> |s.vms| == 91)
  {
    var s := Run(events);
    RunSound(events);
    ValuesSize(s.vms);
    RangeSize(CAPACITY);
    var range := Range(CAPACITY);
    assert s.vms.Values <= range;
    assert |range| == |s.vms.Values| + |range - s.vms.Values|;
    if |s.vms| == CAPACITY {
      SubsetFull(s.vms.Values, range);
    }
    if Least(s.vms.Values, FIRST).None? {
      assert range <= s.vms.Values;
    }
  }

  /** The machine is new, under the least free address of the range and an id never used
      before; every other machine is as it was. */
  ghost predicate Adds(s: State, s': State, h: nat) {
    && 9 <= h <= 99 && Candidate(h) !in s.vms.Values
    && (forall j :: 9 <= j < h ==> Candidate(j) in s.vms.Values)
    && s.nextId !in s.vms && s'.vms == s.vms[s.nextId := Candidate(h)] && s'.nextId == s.nextId + 1
  }

  /** After any run a create adds one machine if and only if the member exists, Proxmox does its
      part and fewer than 91 machines are live; otherwise nothing changes. */
  lemma CreateOutcome(events: seq<Event>, memberFound: bool, proxmoxOk: bool)
    ensures var s := Run(events);
            var s' := Step(s, Create(memberFound, proxmoxOk));
            if memberFound && proxmoxOk && |s.vms| < 91 then exists h: nat :: Adds(s, s', h) else s' == s
  {
    RunSound(events);
    AllocationFailsIff(events);
    var s := Run(events);
    var host := Least(s.vms.Values, FIRST);
    if memberFound && proxmoxOk && host.Some? {
      assert Adds(s, Step(s, Create(memberFound, proxmoxOk)), host.value);
    }
  }

  /** A delete takes the machine named, if Proxmox does its part, and no other; its id is not
      given out again. */
  lemma DeleteOutcome(s: State, id: nat, proxmoxOk: bool)
    ensures var s' := Step(s, Delete(id, proxmoxOk));
            && s'.nextId == s.nextId
            && (forall x :: x in s'.vms <==> x in s.vms && !(x == id && proxmoxOk))
            && (forall x :: x in s'.vms ==> s'.vms[x] == s.vms[x])
  {
  }

  /** With all 91 addresses taken, the address freed by a delete is the one the next create
      gets. */
  lemma FreedAddressReused(events: seq<Event>, id: nat)
    ensures var s := Run(events);
            var s' := Step(Step(s, Delete(id, true)), Create(true, true));
            |s.vms| == 91 && id in s.vms ==> s'.vms == (s.vms - {id})[s.nextId := s.vms[id]]
  {
    OnlyFreed(events, id);
  }

  /** When every address is taken, deleting one machine leaves exactly its address free. */
  lemma OnlyFreed(events: seq<Event>, id: nat)
    ensures var vms := Run(events).vms;
            var host := Least((vms - {id}).Values, FIRST);
            |vms| == 91 && id in vms ==> host.Some? && Candidate(host.value) == vms[id]
  {
    var s := Run(events);
    RunSound(events);
    AllocationFailsIff(events);
    if |s.vms| == 91 && id in s.vms {
      FreedIn(s, id);
    }
  }

  lemma FreedIn(s: State, id: nat)
    requires Sound(s) && id in s.vms && Least(s.vms.Values, FIRST).None?
    ensures var host := Least((s.vms - {id}).Values, FIRST);
            host.Some? && Candidate(host.value) == s.vms[id]
  {
    assert InRange(s.vms[id]);
    var h :| FIRST <= h <= LAST && s.vms[id] == Candidate(h);
    var used := (s.vms - {id}).Values;
    forall j | FIRST <= j <= LAST && j != h ensures Candidate(j) in used {
      StillTaken(s, id, h, j);
    }
    Alone(used, h);
  }

  lemma Alone(used: set<string>, h: nat)
    requires FIRST <= h <= LAST && Candidate(h) !in used
    requires forall j :: FIRST <= j <= LAST && j != h ==> Candidate(j) in used
    ensures Least(used, FIRST) == Some(h)
  {
  }

  lemma StillTaken(s: State, id: nat, h: nat, j: nat)
    requires id in s.vms && s.vms[id] == Candidate(h) && Candidate(j) in s.vms.Values && j != h
    ensures Candidate(j) in (s.vms - {id}).Values
  {
    CandidatesDiffer(j, h);
    var ip, left := Candidate(j), s.vms - {id};
    var x :| x in s.vms && s.vms[x] == ip;
    assert x in left && left[x] == ip;
  }

  // ---- The service ----

  class VmService {
    var vms: map<nat, string>
    var nextId: nat

    ghost function View(): State
      reads this
    {
      State(vms, nextId)
    }

    constructor ()
      ensures View() == Run([])
    {
      vms := map[];
      nextId := 1;
    }

    /** allocateInternalIp: None stands for the internal server error. */
    method AllocateInternalIp() returns (ip: Option<string>)
      ensures var host := Least(vms.Values, FIRST);
              ip == if host.None? then None else Some(Candidate(host.value))
    {
      var usedIps := vms.Values;
      for i := FIRST to LAST + 1
        invariant Least(usedIps, FIRST) == Least(usedIps, i)
      {
        var candidateIp := "10.8.0." + Decimal(i);
        if candidateIp !in usedIps {
          return Some(candidateIp);
        }
      }
      return None;
    }

    method CreateVm(memberFound: bool, proxmoxOk: bool) returns (created: Option<(nat, string)>)
      modifies this
      ensures View() == Step(old(View()), Create(memberFound, proxmoxOk))
      ensures created.Some? ==> created.value.0 == old(nextId) && created.value.0 in vms
                                && vms[created.value.0] == created.value.1
      ensures created.Some? <==> memberFound && proxmoxOk && Least(old(vms).Values, FIRST).Some?
      ensures created.None? ==> View() == old(View())
    {
      if !memberFound {
        return None;
      }
      var ip := AllocateInternalIp();
      if ip.None? || !proxmoxOk {
        return None;
      }
      created := Some((nextId, ip.value));
      vms := vms[nextId := ip.value];
      nextId := nextId + 1;
    }

    method DeleteVm(id: nat, proxmoxOk: bool) returns (ok: bool)
      modifies this
      ensures View() == Step(old(View()), Delete(id, proxmoxOk))
      ensures ok <==> id in old(vms) && proxmoxOk
    {
      if id !in vms || !proxmoxOk {
        return false;
      }
      vms := vms - {id};
      return true;
    }
  }
}
