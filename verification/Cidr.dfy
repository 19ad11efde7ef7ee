/** IPv4 prefixes as src/platform/cidr.h sees them: an address, a prefix length
    and membership decided by masking. */
module Cidrs {
  import opened Bits

  const SPACE: nat := 0x1_0000_0000

  datatype Cidr = Cidr(addr: nat, prefix: nat) {
    predicate Ok()
    {
      addr < SPACE && prefix <= 32
    }

    /** Host bits clear, so the prefix names one aligned block. */
    predicate Aligned()
    {
      Ok() && addr % Size(this) == 0
    }

    /** Membership as an interval, the reference for Contains. */
    predicate Holds(ip: nat)
    {
      addr <= ip < addr + Size(this)
    }
  }

  function MaskOf(prefix: nat): nat
    requires prefix <= 32
  {
    if prefix == 0 then 0 else 0xFFFF_FFFF * Pow2(32 - prefix) % SPACE
  }

  function Size(c: Cidr): nat
  {
    if c.prefix <= 32 then Pow2(32 - c.prefix) else 1
  }

  predicate Contains(net: Cidr, ip: nat)
    requires net.prefix <= 32
  {
    And(ip, MaskOf(net.prefix)) == And(net.addr, MaskOf(net.prefix))
  }

  function Normalize(c: Cidr): Cidr
    requires c.prefix <= 32
  {
    c.(addr := And(c.addr, MaskOf(c.prefix)))
  }

  lemma MaskValue(prefix: nat)
    requires prefix <= 32
    ensures Pow2(32 - prefix) <= SPACE
    ensures MaskOf(prefix) == SPACE - Pow2(32 - prefix)
  {
    WordSizes();
    if prefix != 0 {
      Pow2Less(32 - prefix, 32);
      MaskArith(Pow2(32 - prefix), SPACE);
    }
  }

  lemma MaskArith(m: nat, s: nat)
    requires 0 < m <= s
    ensures (s - 1) * m % s == s - m
  {
    assert (s - 1) * m == (m - 1) * s + (s - m);
    ModUnique((s - 1) * m, s, m - 1, s - m);
  }

  lemma RoundDown(a: nat, z: nat)
    requires z > 0
    ensures (a - a % z) % z == 0 && 0 <= a - a % z <= a < a - a % z + z
    ensures a % z == 0 <==> a - a % z == a
  {
    ModUnique(a - a % z, z, a / z, 0);
  }

  /** Clearing host bits rounds down to the block, and is what makes it aligned. */
  lemma NormalizeRoundsDown(c: Cidr)
    requires c.Ok()
    ensures Normalize(c).addr == c.addr - c.addr % Size(c)
    ensures Normalize(c).Aligned() && Normalize(c).Holds(c.addr)
    ensures c.Aligned() <==> Normalize(c) == c
  {
    hide And, MaskOf, Pow2;
    MaskValue(c.prefix);
    WordSizes();
    AndHighMask(c.addr, 32, 32 - c.prefix);
    RoundDown(c.addr, Size(c));
  }

  lemma SameBlock(a: nat, x: nat, z: nat)
    requires z > 0
    ensures x - x % z == a - a % z <==> a - a % z <= x < a - a % z + z
  {
    RoundDown(x, z);
    if a - a % z <= x < a - a % z + z {
      ModUnique(x, z, a / z, x - (a - a % z));
    }
  }

  /** Membership by masking is membership in the normalized block. */
  lemma ContainsIsInterval(c: Cidr, ip: nat)
    requires c.Ok() && ip < SPACE
    ensures Contains(c, ip) <==> Normalize(c).Holds(ip)
  {
    NormalizeRoundsDown(c);
    NormalizeRoundsDown(Cidr(ip, c.prefix));
    SameBlock(c.addr, ip, Size(c));
  }

  /** Two aligned blocks that meet are nested. */
  lemma Laminar(b: Cidr, c: Cidr, x: nat)
    requires b.Aligned() && c.Aligned() && b.Holds(x) && c.Holds(x)
    requires b.prefix <= c.prefix
    ensures b.addr <= c.addr && c.addr + Size(c) <= b.addr + Size(b)
  {
    var i := BlockIndex(b);
    var j := BlockIndex(c);
    var m := SizeRatio(b, c);
    NestedMultiples(i, m, Size(b), j, Size(c), x);
  }

  lemma BlockIndex(c: Cidr) returns (i: nat)
    requires c.Aligned()
    ensures c.addr == i * Size(c)
  {
    i := c.addr / Size(c);
  }

  lemma SizeRatio(b: Cidr, c: Cidr) returns (m: nat)
    requires b.prefix <= c.prefix <= 32
    ensures Size(b) == m * Size(c)
  {
    m := Pow2(c.prefix - b.prefix);
    Pow2Add(c.prefix - b.prefix, 32 - c.prefix);
  }

  lemma NestedMultiples(i: nat, m: nat, w: nat, j: nat, z: nat, x: nat)
    requires w == m * z && i * w <= x < i * w + w && j * z <= x < j * z + z
    ensures i * w <= j * z && j * z + z <= i * w + w
  {
    assert i * w == (i * m) * z;
    assert (i * m) * z + w == (i * m + m) * z;
    assert j * z + z == (j + 1) * z;
    BetweenMultiples(i * m, j, z);
    BetweenMultiples(j, i * m + m - 1, z);
    MulMono(j + 1, i * m + m, z);
    MulMono(i * m, j, z);
  }

  lemma MulMono(a: int, b: int, z: nat)
    requires a <= b
    ensures a * z <= b * z
  {
  }

  lemma BetweenMultiples(a: int, b: int, z: nat)
    requires a * z < (b + 1) * z
    ensures a <= b
  {
    if a >= b + 1 {
      MulMono(b + 1, a, z);
    }
  }
}
