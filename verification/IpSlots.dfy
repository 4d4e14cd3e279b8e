/**
 * The per-IP concurrency limiter of src/ip_limiter.rs: a counter per address, created on first sight
 * and removed at zero. A slot granted while the limit is 0, or to loopback, is not counted, yet its
 * release still takes one off whatever counter its address has by then.
 */
module IpSlots {
  import opened Common

  type Counts = map<IpAddr, nat>

  function CountOf(counts: Counts, ip: IpAddr): nat {
    if ip in counts then counts[ip] else 0
  }

  /** Whether a request under `limit` is decided by a counter at all. */
  predicate Tracked(ip: IpAddr, limit: nat) {
    limit > 0 && !ip.IsLoopback()
  }

  predicate Granted(counts: Counts, ip: IpAddr, limit: nat) {
    Tracked(ip, limit) ==> CountOf(counts, ip) < limit
  }

  function AfterAcquire(counts: Counts, ip: IpAddr, limit: nat): Counts {
    if Tracked(ip, limit) && Granted(counts, ip, limit) then counts[ip := CountOf(counts, ip) + 1] else counts
  }

  /** Limit 0 and loopback grant without counting; anyone else is granted, and counted, exactly below the limit. */
  lemma GrantsAreExact(counts: Counts, ip: IpAddr, limit: nat)
    ensures limit == 0 || ip.IsLoopback() ==> Granted(counts, ip, limit) && AfterAcquire(counts, ip, limit) == counts
    ensures limit > 0 && !ip.IsLoopback() ==> (Granted(counts, ip, limit) <==> ip !in counts || counts[ip] < limit)
    ensures limit > 0 && !ip.IsLoopback() && Granted(counts, ip, limit) ==>
              AfterAcquire(counts, ip, limit) == counts[ip := if ip in counts then counts[ip] + 1 else 1]
    ensures !Granted(counts, ip, limit) ==> AfterAcquire(counts, ip, limit) == counts
  {}

  const USIZE_MAX: nat := 0xFFFF_FFFF_FFFF_FFFF

  /** Decrementing a stored 0 would wrap; `Hygienic`, which every run keeps, rules it out. */
  function AfterRelease(counts: Counts, ip: IpAddr): Counts {
    if ip !in counts then counts
    else
      var left := if counts[ip] == 0 then USIZE_MAX else counts[ip] - 1;
      if left == 0 then counts - {ip} else counts[ip := left]
  }

  /** No zero is ever stored and loopback never is. */
  ghost predicate Hygienic(counts: Counts) {
    forall ip :: ip in counts ==> counts[ip] > 0 && !ip.IsLoopback()
  }

  /** No address counts more than the slots it holds. */
  ghost predicate CountsWithin(counts: Counts, live: multiset<IpAddr>) {
    forall ip :: ip in counts ==> counts[ip] <= live[ip]
  }

  lemma AcquireKeepsCounts(counts: Counts, live: multiset<IpAddr>, ip: IpAddr, limit: nat)
    requires Hygienic(counts) && CountsWithin(counts, live)
    ensures Hygienic(AfterAcquire(counts, ip, limit))
    ensures CountsWithin(AfterAcquire(counts, ip, limit), if Granted(counts, ip, limit) then live + multiset{ip} else live)
  {}

  lemma ReleaseKeepsCounts(counts: Counts, live: multiset<IpAddr>, ip: IpAddr)
    requires Hygienic(counts) && CountsWithin(counts, live) && ip in live
    ensures Hygienic(AfterRelease(counts, ip)) && CountsWithin(AfterRelease(counts, ip), live - multiset{ip})
  {}

  datatype IpSlot = IpSlot(addr: IpAddr)

  /** The shared limiter, with the addresses of the handles now alive as ghost state. */
  class IpLimiter {
    var slots: Counts
    var maxPerIp: nat
    ghost var live: multiset<IpAddr>

    ghost predicate Valid()
      reads this
    {
      Hygienic(slots) && CountsWithin(slots, live)
    }

    constructor (maxPerIp: nat)
      ensures Valid()
      ensures slots == map[] && live == multiset{} && this.maxPerIp == maxPerIp
    {
      slots := map[];
      this.maxPerIp := maxPerIp;
      live := multiset{};
    }

    method TryAcquireSlot(addr: IpAddr) returns (slot: Option<IpSlot>)
      requires Valid()
      modifies this
      ensures Valid() && maxPerIp == old(maxPerIp)
      ensures slot == if old(Granted(slots, addr, maxPerIp)) then Some(IpSlot(addr)) else None
      ensures slots == old(AfterAcquire(slots, addr, maxPerIp))
      ensures maxPerIp == 0 || addr.IsLoopback() ==> slot.Some? && slots == old(slots)
      ensures maxPerIp > 0 && !addr.IsLoopback() ==> (slot.Some? <==> addr !in old(slots) || old(slots)[addr] < maxPerIp)
      ensures live == if slot.Some? then old(live) + multiset{addr} else old(live)
    {
      AcquireKeepsCounts(slots, live, addr, maxPerIp);
      if maxPerIp == 0 || addr.IsLoopback() {
        live := live + multiset{addr};
        return Some(IpSlot(addr));
      }
      var before := slots;
      if addr !in slots {
        slots := slots[addr := 0];
      }
      if slots[addr] >= maxPerIp {
        // The limit is positive, so an entry just created never ends up here with its zero.
        assert slots == before;
        return None;
      }
      slots := slots[addr := slots[addr] + 1];
      live := live + multiset{addr};
      slot := Some(IpSlot(addr));
    }

    /** Dropping a live handle. */
    method ReleaseSlot(slot: IpSlot)
      requires Valid() && slot.addr in live
      modifies this
      ensures Valid() && maxPerIp == old(maxPerIp)
      ensures slots == old(AfterRelease(slots, slot.addr))
      ensures slot.addr !in old(slots) ==> slots == old(slots)
      ensures slot.addr in old(slots) ==>
                slots == if old(slots)[slot.addr] == 1 then old(slots) - {slot.addr}
                         else old(slots)[slot.addr := old(slots)[slot.addr] - 1]
      ensures live == old(live) - multiset{slot.addr}
    {
      ReleaseKeepsCounts(slots, live, slot.addr);
      if slot.addr in slots {
        slots := slots[slot.addr := slots[slot.addr] - 1];
        if slots[slot.addr] == 0 {
          slots := slots - {slot.addr};
        }
      }
      live := live - multiset{slot.addr};
    }

    method SetLimit(maxPerIp: nat)
      requires Valid()
      modifies this`maxPerIp
      ensures Valid() && this.maxPerIp == maxPerIp
    {
      this.maxPerIp := maxPerIp;
    }
  }
}
