// lib/ntw/network.go and network_cleanup.go: the pool of container addresses.
module IpAllocator {
  import opened Prelude

  type IP = ip: seq<Byte> | |ip| == 4 witness [10, 0, 0, 0]

  // ---- one call ---------------------------------------------------------------

  datatype Pool = Pool(base: IP, next: nat, used: set<IP>)

  function Fresh(base: IP): Pool {
    Pool(base, 10, {})
  }

  function Address(base: IP, octet: Byte): IP {
    base[3 := octet]
  }

  // The address the search settles on, and the pool after it.
  function Allocated(p: Pool): (r: (Pool, Option<IP>))
    ensures r.1.Some? ==> r.1.value !in p.used && r.0.used == p.used + {r.1.value}
    ensures r.1.None? ==> r.0.used == p.used
    ensures r.0.base == p.base
    decreases 254 - p.next
  {
    if p.next >= 254 then (p, None)
    else
      var ip := Address(p.base, p.next);
      if ip in p.used then Allocated(p.(next := p.next + 1))
      else (p.(next := p.next + 1, used := p.used + {ip}), Some(ip))
  }

  function Released(p: Pool, ip: Option<IP>): Pool {
    match ip
    case None => p
    case Some(a) => p.(used := p.used - {a})
  }

  class IPAllocator {
    const base: IP
    var next: nat
    var used: set<IP>

    function State(): Pool
      reads this
    {
      Pool(base, next, used)
    }

    // NewIPAlloc, for an IPv4 range.
    constructor (base: IP)
      ensures State() == Fresh(base)
    {
      this.base := base;
      next := 10;
      used := {};
    }

    method Allocate() returns (ip: Option<IP>)
      modifies this
      ensures (State(), ip) == Allocated(old(State()))
    {
      while next < 254
        invariant Allocated(State()) == Allocated(old(State()))
        decreases 254 - next
      {
        var candidate := Address(base, next);
        ghost var before := State();
        next := next + 1;
        if candidate !in used {
          used := used + {candidate};
          return Some(candidate);
        }
        assert Allocated(before) == Allocated(State());
      }
      return None;
    }

    method Release(ip: Option<IP>)
      modifies this
      ensures State() == Released(old(State()), ip)
    {
      if ip == None {
        return;
      }
      used := used - {ip.value};
    }
  }

  // An address given back at once leaves the used set as it was.
  lemma GivenBack(p: Pool)
    ensures Released(Allocated(p).0, Allocated(p).1).used == p.used
  {
    var r := Allocated(p);
  }

  // NetworkConfig: whether the veth pair and the container's interface could be set up is
  // the kernel's to say.  A failure gives the address back.
  method NetworkConfig(alloc: IPAllocator, vethUp: bool, interfaceUp: bool) returns (net: Option<IP>)
    modifies alloc
    ensures net == if vethUp && interfaceUp then Allocated(old(alloc.State())).1 else None
    ensures net.Some? ==> net.value !in old(alloc.used) && alloc.used == old(alloc.used) + {net.value}
    ensures net.None? ==> alloc.used == old(alloc.used)
    ensures alloc.next == Allocated(old(alloc.State())).0.next
  {
    var ip := alloc.Allocate();
    if ip == None {
      return None;
    }
    if !vethUp {
      alloc.Release(ip);
      return None;
    }
    if !interfaceUp {
      alloc.Release(ip);
      return None;
    }
    return ip;
  }

  // ---- whole histories -----------------------------------------------------------

  datatype Call = AllocateCall | ReleaseCall(ip: Option<IP>)

  // The pool after a history of calls, and the addresses it handed out, in order.
  datatype Trail = Trail(pool: Pool, granted: seq<IP>)

  function After(t: Trail, call: Call): Trail {
    match call
    case ReleaseCall(ip) => t.(pool := Released(t.pool, ip))
    case AllocateCall =>
      var (pool, ip) := Allocated(t.pool);
      Trail(pool, if ip.Some? then t.granted + [ip.value] else t.granted)
  }

  function Replay(base: IP, calls: seq<Call>): Trail {
    if calls == [] then Trail(Fresh(base), [])
    else After(Replay(base, calls[..|calls| - 1]), calls[|calls| - 1])
  }

  lemma {:induction false} HistoryInv(base: IP, calls: seq<Call>)
    ensures var t := Replay(base, calls);
      && t.pool.base == base
      && t.pool.next == 10 + |t.granted| <= 254
      && (forall k :: 0 <= k < |t.granted| ==> t.granted[k] == Address(base, 10 + k))
      && (forall ip :: ip in t.pool.used ==> ip in t.granted)
  {
    if calls != [] {
      var before := Replay(base, calls[..|calls| - 1]);
      HistoryInv(base, calls[..|calls| - 1]);
      if calls[|calls| - 1] == AllocateCall && before.pool.next < 254 {
        NeverSkips(base, before);
      }
    }
  }

  // The used test never rejects the next address: every used one has a smaller last octet.
  lemma NeverSkips(base: IP, t: Trail)
    requires t.pool.base == base && t.pool.next == 10 + |t.granted| < 254
    requires forall k :: 0 <= k < |t.granted| ==> t.granted[k] == Address(base, 10 + k)
    requires forall ip :: ip in t.pool.used ==> ip in t.granted
    ensures Address(base, t.pool.next) !in t.pool.used
    ensures Allocated(t.pool).1 == Some(Address(base, t.pool.next))
  {
    var ip := Address(base, t.pool.next);
    forall k | 0 <= k < |t.granted| ensures t.granted[k] != ip {
      assert Address(base, 10 + k)[3] != ip[3];
    }
  }

  // Main result: whatever is released in between, the k-th successful Allocate hands out
  // last octet 9+k, so no address is ever handed out twice, and a call fails exactly when
  // 244 addresses have been handed out.
  lemma AllocatorHistory(base: IP, calls: seq<Call>)
    ensures var t := Replay(base, calls);
      && |t.granted| <= 244
      && (forall k :: 0 <= k < |t.granted| ==> t.granted[k][..3] == base[..3] && t.granted[k][3] == 10 + k <= 253)
      && (forall i, j :: 0 <= i < j < |t.granted| ==> t.granted[i] != t.granted[j])
      && (Allocated(t.pool).1 == None <==> |t.granted| == 244)
  {
    HistoryInv(base, calls);
    var t := Replay(base, calls);
    forall i, j | 0 <= i < j < |t.granted| ensures t.granted[i] != t.granted[j] {
      assert t.granted[i][3] == 10 + i && t.granted[j][3] == 10 + j;
    }
    if t.pool.next < 254 { NeverSkips(base, t); }
  }
}
