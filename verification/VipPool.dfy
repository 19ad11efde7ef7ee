/** The virtual address pool (server/UDP/Session.h). Addresses are in host order;
    htonl and ntohl only rename them. */
module VipPool {
  import opened Bits
  import opened Text

  const ADDRS: nat := 0x1_0000_0000
  const DRAWS: nat := 32

  /** The pool as a value: host range, gateway, addresses handed out. */
  datatype Pool = Pool(first: nat, last: nat, gw: nat, used: set<nat>) {

    /** No host addresses at all (/31, /32). */
    predicate Empty()
    {
      first == 0 || last < first
    }

    predicate Host(ip: nat)
    {
      0 < ip && first <= ip <= last && ip != gw
    }

    predicate Free(ip: nat)
    {
      Host(ip) && ip !in used
    }

    function Take(ip: nat): Pool
    {
      this.(used := used + {ip})
    }

    function Release(ip: nat): Pool
    {
      this.(used := used - {ip})
    }

    /** The first of the random draws that is free, up to 32 of them. */
    function Drawn(draws: seq<nat>, tries: nat): nat
      decreases tries
    {
      if tries == 0 || draws == [] then 0
      else if Free(draws[0]) then draws[0]
      else Drawn(draws[1..], tries - 1)
    }

    /** The lowest free address from ip on, 0 when there is none. */
    function Lowest(ip: nat): nat
      decreases last + 1 - ip
    {
      if ip > last then 0 else if Free(ip) then ip else Lowest(ip + 1)
    }

    /** What allocate hands out: a lucky draw, else the lowest free address. */
    function Allocated(draws: seq<nat>): nat
    {
      if Empty() then 0
      else
        var ip := Drawn(draws, DRAWS);
        if ip != 0 then ip else Lowest(first)
    }
  }

  // ---- FNV-1a, 64 bit ---------------------------------------------------------

  const FNV_BASIS: nat := 14695981039346656037
  const FNV_PRIME: nat := 1099511628211
  const WORD64: nat := 0x1_0000_0000_0000_0000

  function Xor(x: nat, y: nat): nat
  {
    if x == 0 then y
    else if y == 0 then x
    else (if x % 2 == y % 2 then 0 else 1) + 2 * Xor(x / 2, y / 2)
  }

  function Fnv1a(key: string): nat
  {
    if key == [] then FNV_BASIS
    else Xor(Fnv1a(key[..|key| - 1]), key[|key| - 1] as nat % 256) * FNV_PRIME % WORD64
  }

  /** The candidate address an identity maps to. */
  function Preferred(p: Pool, key: string): nat
  {
    if p.Empty() then 0
    else
      var ip := p.first + Fnv1a(key) % (p.last - p.first + 1);
      if ip == p.gw then (if ip < p.last then ip + 1 else p.first) else ip
  }

  // ---- the class ----------------------------------------------------------------

  class VirtualIpPool {
    var used: set<nat>
    var first: nat
    var last: nat
    var gw: nat

    ghost function View(): Pool
      reads this
    {
      Pool(first, last, gw, used)
    }

    /** Network and broadcast address lie outside the host range; a range that
        would be empty becomes 0..0. */
    constructor (gateway: nat, prefix: int)
      requires gateway < ADDRS
      ensures used == {} && gw == gateway
      ensures 1 <= prefix <= 30 ==>
                var size := Pow2(32 - prefix);
                var net := gateway - gateway % size;
                first == net + 1 && last == net + size - 2 && first < last
      ensures prefix == 31 || prefix == 32 ==> View().Empty()
    {
      hide And, Or, Pow2;
      var hostMask := if prefix <= 0 then ADDRS - 1
                      else if prefix >= 32 then 0
                      else Pow2(32 - prefix) - 1;
      HostMaskBounds(prefix);
      var net := And(gateway, ADDRS - 1 - hostMask);
      var lo := (net + 1) % ADDRS;
      var hi := Or(net, hostMask);
      if 1 <= prefix <= 32 {
        NetworkArithmetic(gateway, 32 - prefix);
      }
      if hi > 0 {
        hi := hi - 1;
      }
      if hi < lo {
        lo, hi := 0, 0;
      }
      used, first, last, gw := {}, lo, hi, gateway;
    }

    method Allocate(draws: seq<nat>) returns (ip: nat)
      modifies this
      ensures ip == old(View()).Allocated(draws)
      ensures View() == if ip == 0 then old(View()) else old(View()).Take(ip)
      ensures first == old(first) && last == old(last) && gw == old(gw)
    {
      if first == 0 || last < first {
        return 0;
      }
      var i := 0;
      assert draws[0..] == draws;
      while i < DRAWS && i < |draws|
        invariant i <= |draws| && i <= DRAWS
        invariant View() == old(View())
        invariant View().Drawn(draws, DRAWS) == View().Drawn(draws[i..], DRAWS - i)
      {
        ip := draws[i];
        // The generator only draws from the range; other numbers are skipped.
        if first <= ip <= last && ip != gw && ip !in used {
          used := used + {ip};
          return ip;
        }
        assert draws[i..][1..] == draws[i + 1..];
        i := i + 1;
      }
      ip := first;
      while ip <= last
        invariant first <= ip <= last + 1
        invariant View() == old(View())
        invariant View().Lowest(first) == View().Lowest(ip)
        decreases last + 1 - ip
      {
        if ip != gw && ip !in used {
          used := used + {ip};
          return ip;
        }
        ip := ip + 1;
      }
      return 0;
    }

    method PreferredFor(key: string) returns (ip: nat)
      ensures ip == Preferred(View(), key)
    {
      if first == 0 || last < first {
        return 0;
      }
      var h := FNV_BASIS;
      for i := 0 to |key|
        invariant h == Fnv1a(key[..i])
      {
        assert key[..i + 1][..i] == key[..i];
        h := Xor(h, key[i] as nat % 256) * FNV_PRIME % WORD64;
      }
      assert key[..|key|] == key;
      ip := first + h % (last - first + 1);
      if ip == gw {
        ip := if ip < last then ip + 1 else first;
      }
    }

    method Release(ip: nat)
      modifies this`used
      ensures View() == old(View()).Release(ip)
    {
      used := used - {ip};
    }

    method TryAcquire(ip: nat) returns (ok: bool)
      modifies this`used
      ensures ok <==> old(View()).Free(ip)
      ensures View() == if ok then old(View()).Take(ip) else old(View())
    {
      if ip == 0 || ip == gw || ip < first || ip > last {
        return false;
      }
      if ip in used {
        return false;
      }
      used := used + {ip};
      return true;
    }
  }

  // ---- facts ---------------------------------------------------------------------

  lemma HostMaskBounds(prefix: int)
    ensures 0 < prefix < 32 ==> 2 * Pow2(32 - prefix) <= ADDRS
  {
    if 0 < prefix < 32 {
      WordSizes();
      Pow2Less(32 - prefix, 32);
    }
  }

  lemma NetworkArithmetic(gateway: nat, k: nat)
    requires gateway < ADDRS && k <= 31
    ensures 0 < Pow2(k) <= ADDRS
    ensures if k == 0 then Pow2(k) == 1 else if k == 1 then Pow2(k) == 2 else Pow2(k) >= 4
    ensures var net := Floor(gateway, Pow2(k));
            && net == gateway - gateway % Pow2(k)
            && And(gateway, ADDRS - Pow2(k)) == net
            && Or(net, Pow2(k) - 1) == net + Pow2(k) - 1 < ADDRS
  {
    assert Pow2(1) == 2 && Pow2(2) == 4;
    hide And, Or, Pow2;
    WordSizes();
    Pow2Less(k, 32);
    if k > 2 {
      Pow2Less(2, k);
    }
    AndHighMask(gateway, 32, k);
    OrFill(gateway, k);
    MultipleBelow(gateway, k, 32);
  }

  lemma MultipleBelow(x: nat, k: nat, n: nat)
    requires k <= n && x < Pow2(n)
    ensures Floor(x, Pow2(k)) + Pow2(k) <= Pow2(n)
    decreases k
  {
    if k != 0 {
      MultipleBelow(x / 2, k - 1, n - 1);
      RoundedHalf(x, Pow2(k - 1));
    }
  }

  /** Allocation hands out a free host address, and fails only when none is left. */
  lemma AllocatedIsFree(p: Pool, draws: seq<nat>)
    ensures p.Allocated(draws) != 0 ==> p.Free(p.Allocated(draws))
    ensures p.Allocated(draws) == 0 && (p.first > 0 || p.last == 0) ==> forall ip :: !p.Free(ip)
  {
    DrawnIsFree(p, draws, DRAWS);
    if p.first > 0 {
      LowestIsFree(p, p.first);
    }
  }

  lemma DrawnIsFree(p: Pool, draws: seq<nat>, tries: nat)
    ensures p.Drawn(draws, tries) != 0 ==> p.Free(p.Drawn(draws, tries))
    decreases tries
  {
    if tries != 0 && draws != [] {
      DrawnIsFree(p, draws[1..], tries - 1);
    }
  }

  lemma LowestIsFree(p: Pool, from: nat)
    requires from > 0
    ensures p.Lowest(from) != 0 ==> p.Free(p.Lowest(from))
    ensures p.Lowest(from) == 0 ==> forall ip :: from <= ip ==> !p.Free(ip)
    decreases p.last + 1 - from
  {
    if from <= p.last && !p.Free(from) {
      LowestIsFree(p, from + 1);
    }
  }

  /** A candidate address is always a host address, never the gateway, whenever the
      range has two addresses. */
  lemma PreferredIsHost(p: Pool, key: string)
    requires 0 < p.first < p.last
    ensures p.Host(Preferred(p, key))
  {
  }
}
