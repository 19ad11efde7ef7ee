/** scripts/gen_chnroute.py: merge address ranges, split each greedily into
    aligned power-of-two blocks. The script promises the smallest CIDR set. */
module ChnRoute {
  import opened Bits
  import opened Cidrs

  /** A closed address range, as (network_address, broadcast_address). */
  datatype Range = Range(start: nat, end: nat) {
    predicate Ok()
    {
      start <= end < SPACE
    }

    predicate Holds(x: nat)
    {
      start <= x <= end
    }

    /** Tuple order: by start, then by end. */
    predicate Leq(other: Range)
    {
      start < other.start || (start == other.start && end <= other.end)
    }
  }

  predicate AllOk(rs: seq<Range>)
  {
    forall i :: 0 <= i < |rs| ==> rs[i].Ok()
  }

  ghost predicate InRanges(rs: seq<Range>, x: nat)
  {
    exists i :: 0 <= i < |rs| && rs[i].Holds(x)
  }

  ghost predicate InBlocks(cs: seq<Cidr>, x: nat)
  {
    exists i :: 0 <= i < |cs| && cs[i].Holds(x)
  }

  /** Sorted, disjoint, and with at least one free address between neighbours. */
  ghost predicate Separated(rs: seq<Range>)
  {
    forall i, j :: 0 <= i < j < |rs| ==> rs[i].end + 1 < rs[j].start
  }

  ghost predicate SortedRanges(rs: seq<Range>)
  {
    forall i, j :: 0 <= i < j < |rs| ==> rs[i].Leq(rs[j])
  }

  ghost predicate AllAligned(cs: seq<Cidr>)
  {
    forall i :: 0 <= i < |cs| ==> cs[i].Aligned()
  }

  ghost predicate Ascending(cs: seq<Cidr>)
  {
    forall i, j :: 0 <= i < j < |cs| ==> cs[i].addr + Size(cs[i]) <= cs[j].addr
  }

  method SortRanges(ranges: seq<Range>) returns (sorted: seq<Range>)
    ensures multiset(sorted) == multiset(ranges)
    ensures SortedRanges(sorted)
  {
    sorted := [];
    for n := 0 to |ranges|
      invariant multiset(sorted) == multiset(ranges[..n])
      invariant SortedRanges(sorted)
    {
      var r := ranges[n];
      var i := |sorted|;
      while i > 0 && !sorted[i - 1].Leq(r)
        invariant 0 <= i <= |sorted|
        invariant forall j :: i <= j < |sorted| ==> r.Leq(sorted[j])
      {
        i := i - 1;
      }
      assert ranges[..n + 1] == ranges[..n] + [r];
      InsertSorted(sorted, i, r);
      InsertKeeps(sorted, i, r);
      sorted := sorted[..i] + [r] + sorted[i..];
    }
    assert ranges[..|ranges|] == ranges;
  }

  lemma InsertSorted(s: seq<Range>, i: nat, r: Range)
    requires SortedRanges(s) && i <= |s|
    requires i > 0 ==> s[i - 1].Leq(r)
    requires forall j :: i <= j < |s| ==> r.Leq(s[j])
    ensures SortedRanges(s[..i] + [r] + s[i..])
  {
    hide Range.Leq;
    var t := s[..i] + [r] + s[i..];
    forall a, b | 0 <= a < b < |t|
      ensures t[a].Leq(t[b])
    {
      if b < i {
        assert t[a] == s[a] && t[b] == s[b];
      } else if b == i {
        LeqTransitive(s[a], s[i - 1], r);
        assert t[a] == s[a] && (a < i - 1 ==> s[a].Leq(s[i - 1]));
      } else if a < i {
        assert t[a] == s[a] && t[b] == s[b - 1];
      } else if a > i {
        assert t[a] == s[a - 1] && t[b] == s[b - 1];
      }
    }
  }

  lemma InsertKeeps(s: seq<Range>, i: nat, r: Range)
    requires i <= |s|
    ensures multiset(s[..i] + [r] + s[i..]) == multiset(s) + multiset{r}
  {
    assert s == s[..i] + s[i..];
  }

  lemma LeqTransitive(a: Range, b: Range, c: Range)
    ensures a.Leq(b) && b.Leq(c) ==> a.Leq(c)
  {
  }

  method MergeRanges(ranges: seq<Range>) returns (merged: seq<Range>)
    requires AllOk(ranges)
    ensures AllOk(merged) && Separated(merged)
    ensures forall x: nat :: InRanges(merged, x) <==> InRanges(ranges, x)
  {
    var sorted := SortRanges(ranges);
    SameElements(sorted, ranges);
    merged := [];
    for n := 0 to |sorted|
      invariant AllOk(merged) && Separated(merged)
      invariant merged != [] ==> n > 0 && merged[|merged| - 1].start <= sorted[n - 1].start
      invariant forall x: nat :: InRanges(merged, x) <==> InRanges(sorted[..n], x)
    {
      var r := sorted[n];
      ghost var before := merged;
      assert sorted[..n + 1] == sorted[..n] + [r];
      assert n > 0 ==> sorted[n - 1].Leq(r);
      if merged != [] && r.start <= merged[|merged| - 1].end + 1 {
        var last := merged[|merged| - 1];
        var grown := Range(last.start, if last.end < r.end then r.end else last.end);
        merged := merged[..|merged| - 1] + [grown];
        GrowLast(before, grown, r);
      } else {
        merged := merged + [r];
        AppendRange(before, r);
      }
      AppendRange(sorted[..n], r);
    }
    assert sorted[..|sorted|] == sorted;
  }

  lemma SameElements(a: seq<Range>, b: seq<Range>)
    requires multiset(a) == multiset(b)
    ensures AllOk(a) <==> AllOk(b)
    ensures forall x: nat :: InRanges(a, x) <==> InRanges(b, x)
  {
    forall r
      ensures r in a <==> r in b
    {
      assert r in a <==> r in multiset(a);
      assert r in b <==> r in multiset(b);
    }
    assert AllOk(a) <==> forall r :: r in a ==> r.Ok();
    assert AllOk(b) <==> forall r :: r in b ==> r.Ok();
    forall x: nat
      ensures InRanges(a, x) <==> InRanges(b, x)
    {
      assert InRanges(a, x) <==> exists r :: r in a && r.Holds(x);
      assert InRanges(b, x) <==> exists r :: r in b && r.Holds(x);
    }
  }

  lemma AppendRange(rs: seq<Range>, r: Range)
    ensures forall x: nat :: InRanges(rs + [r], x) <==> InRanges(rs, x) || r.Holds(x)
  {
    forall x: nat
      ensures InRanges(rs + [r], x) <==> InRanges(rs, x) || r.Holds(x)
    {
      assert (rs + [r])[|rs|] == r;
      if InRanges(rs, x) {
        var i :| 0 <= i < |rs| && rs[i].Holds(x);
        assert (rs + [r])[i].Holds(x);
      }
    }
  }

  lemma GrowLast(rs: seq<Range>, grown: Range, r: Range)
    requires rs != [] && AllOk(rs) && r.Ok()
    requires var last := rs[|rs| - 1];
             && last.start <= r.start <= last.end + 1
             && grown == Range(last.start, if last.end < r.end then r.end else last.end)
    ensures forall x: nat :: InRanges(rs[..|rs| - 1] + [grown], x) <==> InRanges(rs, x) || r.Holds(x)
  {
    var front, last := rs[..|rs| - 1], rs[|rs| - 1];
    assert rs == front + [last];
    AppendRange(front, last);
    AppendRange(front, grown);
  }

  // ---- greedy splitting ---------------------------------------------------

  function BitLength(n: nat): nat
  {
    if n == 0 then 0 else 1 + BitLength(n / 2)
  }

  lemma BitLengthOfPow2(k: nat)
    ensures BitLength(Pow2(k)) == k + 1
  {
    if k != 0 {
      BitLengthOfPow2(k - 1);
    }
  }

  predicate Divides(k: nat, x: nat)
  {
    x % Pow2(k) == 0
  }

  lemma AndComplement(x: nat, n: nat)
    requires x < Pow2(n)
    ensures And(x, Pow2(n) - 1 - x) == 0
  {
    if x != 0 && n != 0 {
      AndComplement(x / 2, n - 1);
      assert (Pow2(n) - 1 - x) / 2 == Pow2(n - 1) - 1 - x / 2;
    }
  }

  /** x & -x, in any width that holds x, is the largest power of two dividing x. */
  lemma LowestSetBit(x: nat, n: nat) returns (t: nat)
    requires 0 < x < Pow2(n)
    ensures t < n && And(x, Pow2(n) - x) == Pow2(t)
    ensures forall k: nat :: Divides(k, x) <==> k <= t
  {
    if x % 2 == 1 {
      t := 0;
      AndComplement(x / 2, n - 1);
      assert (Pow2(n) - x) / 2 == Pow2(n - 1) - 1 - x / 2;
      forall k: nat
        ensures Divides(k, x) <==> k <= t
      {
        if k != 0 { HalfMod(x, Pow2(k - 1)); }
      }
    } else {
      var u := LowestSetBit(x / 2, n - 1);
      t := u + 1;
      forall k: nat
        ensures Divides(k, x) <==> k <= t
      {
        if k != 0 {
          HalfMod(x, Pow2(k - 1));
          assert Divides(k, x) <==> Divides(k - 1, x / 2);
        }
      }
    }
  }

  /** c lies inside the closed interval. */
  ghost predicate Inside(c: Cidr, start: nat, end: nat)
  {
    start <= c.addr && c.addr + Size(c) <= end + 1
  }

  /** No aligned block inside the interval properly contains or crosses b. */
  ghost predicate Maximal(b: Cidr, start: nat, end: nat)
  {
    forall c: Cidr :: c.Aligned() && Inside(c, start, end) && c.Holds(b.addr) ==> c.prefix >= b.prefix
  }

  /** No aligned block inside the interval crosses the cut between p - 1 and p. */
  ghost predicate CleanCut(p: nat, start: nat, end: nat)
  {
    forall c: Cidr :: c.Aligned() && Inside(c, start, end) && c.addr < p ==> c.addr + Size(c) <= p
  }

  /** The blocks tile the closed interval, in order. */
  ghost predicate Tiles(cs: seq<Cidr>, start: nat, end: nat)
  {
    && AllAligned(cs)
    && Ascending(cs)
    && (forall i :: 0 <= i < |cs| ==> Inside(cs[i], start, end))
    && (forall x: nat :: InBlocks(cs, x) <==> start <= x <= end)
  }

  lemma DividesZero(k: nat)
    ensures Divides(k, 0)
  {
  }

  /** The inner loop: halve the largest block aligned at p until it fits. */
  method LargestBlock(p: nat, end: nat) returns (maxSize: nat, ghost k: nat)
    requires p <= end < SPACE
    ensures k <= 32 && maxSize == Pow2(k) && Divides(k, p) && p + maxSize - 1 <= end
    ensures forall j: nat :: k < j <= 32 && Divides(j, p) ==> p + Pow2(j) - 1 > end
  {
    hide And, Divides;
    WordSizes();
    if p != 0 {
      maxSize := And(p, SPACE - p);
      k := LowestSetBit(p, 32);
    } else {
      maxSize, k := SPACE, 32;
      DividesZero(32);
    }
    while p + maxSize - 1 > end
      invariant k <= 32 && maxSize == Pow2(k) && Divides(k, p)
      invariant forall j: nat :: k < j <= 32 && Divides(j, p) ==> p + Pow2(j) - 1 > end
    {
      assert k != 0;
      HalvesDivide(k, p);
      maxSize, k := maxSize / 2, k - 1;
    }
  }

  method RangeToCidrs(start: nat, end: nat) returns (out: seq<Cidr>)
    requires end < SPACE
    ensures Tiles(out, start, end)
    ensures forall i :: 0 <= i < |out| ==> Maximal(out[i], start, end)
  {
    hide Size, Divides, BitLength, Pow2, InBlocks;
    out := [];
    assert forall x: nat :: !InBlocks(out, x) by { NoBlocks(); }
    var p := start;
    while p <= end
      invariant start <= p && (p <= end + 1 || p == start)
      invariant CleanCut(p, start, end)
      invariant AllAligned(out) && Ascending(out)
      invariant forall i :: 0 <= i < |out| ==> Inside(out[i], start, end) && out[i].addr + Size(out[i]) <= p
      invariant forall x: nat :: InBlocks(out, x) <==> start <= x < p
      invariant forall i :: 0 <= i < |out| ==> Maximal(out[i], start, end)
      decreases end + 1 - p
    {
      var maxSize, k := LargestBlock(p, end);
      BlockOfSize(p, k);
      var prefix := 32 - (BitLength(maxSize) - 1);
      var block := Cidr(p, prefix);
      GreedyIsMaximal(block, start, end);
      AppendBlock(out, block);
      out := out + [block];
      p := p + maxSize;
    }
  }

  lemma NoBlocks()
    ensures forall x: nat :: !InBlocks([], x)
  {
  }

  lemma BlockOfSize(p: nat, k: nat)
    requires p < SPACE && k <= 32 && Divides(k, p)
    ensures BitLength(Pow2(k)) == k + 1
    ensures Cidr(p, 32 - k).Aligned() && Size(Cidr(p, 32 - k)) == Pow2(k)
  {
    BitLengthOfPow2(k);
  }

  lemma HalvesDivide(k: nat, x: nat)
    requires Divides(k, x) && k > 0
    ensures Divides(k - 1, x)
  {
    var m := Pow2(k - 1);
    assert x == (x / Pow2(k)) * (2 * m) == (2 * (x / Pow2(k))) * m;
    ModUnique(x, m, 2 * (x / Pow2(k)), 0);
  }

  lemma AppendBlock(cs: seq<Cidr>, c: Cidr)
    ensures forall x: nat :: InBlocks(cs + [c], x) <==> InBlocks(cs, x) || c.Holds(x)
  {
    forall x: nat
      ensures InBlocks(cs + [c], x) <==> InBlocks(cs, x) || c.Holds(x)
    {
      assert (cs + [c])[|cs|] == c;
      if InBlocks(cs, x) {
        var i :| 0 <= i < |cs| && cs[i].Holds(x);
        assert (cs + [c])[i].Holds(x);
      }
    }
  }

  /** The largest aligned block that starts at a clean cut and fits is maximal,
      and leaves a clean cut behind. */
  lemma GreedyIsMaximal(b: Cidr, start: nat, end: nat)
    requires b.Aligned() && start <= b.addr && b.addr + Size(b) <= end + 1 <= SPACE
    requires CleanCut(b.addr, start, end)
    requires forall j: nat :: 32 - b.prefix < j <= 32 && Divides(j, b.addr) ==> b.addr + Pow2(j) - 1 > end
    ensures Maximal(b, start, end)
    ensures CleanCut(b.addr + Size(b), start, end)
  {
    forall c: Cidr | c.Aligned() && Inside(c, start, end) && c.Holds(b.addr)
      ensures c.prefix >= b.prefix
    {
      assert c.addr == b.addr;
      assert Divides(32 - c.prefix, b.addr);
    }
    var cut := b.addr + Size(b);
    forall c: Cidr | c.Aligned() && Inside(c, start, end) && c.addr < cut
      ensures c.addr + Size(c) <= cut
    {
      if c.addr < b.addr {
        assert c.addr + Size(c) <= b.addr;
      } else if c.prefix >= b.prefix {
        Laminar(b, c, c.addr);
      } else {
        Laminar(c, b, c.addr);
      }
    }
  }

  // ---- the script's pipeline and its promise ------------------------------

  /** No list of aligned blocks that covers the same addresses is shorter. */
  ghost predicate Smallest(cidrs: seq<Cidr>, ranges: seq<Range>)
  {
    forall other: seq<Cidr> ::
      AllAligned(other) && (forall x: nat :: InBlocks(other, x) <==> InRanges(ranges, x))
      ==> |cidrs| <= |other|
  }

  /** Merge, then split every merged range in turn. The result covers exactly the
      input addresses with aligned, ascending, disjoint blocks, as few as possible. */
  method Aggregate(ranges: seq<Range>) returns (cidrs: seq<Cidr>)
    requires AllOk(ranges)
    ensures AllAligned(cidrs) && Ascending(cidrs)
    ensures forall x: nat :: InBlocks(cidrs, x) <==> InRanges(ranges, x)
    ensures Smallest(cidrs, ranges)
  {
    var merged := MergeRanges(ranges);
    cidrs := [];
    ghost var home: seq<nat> := [];
    for n := 0 to |merged|
      invariant |home| == |cidrs|
      invariant AllAligned(cidrs) && Ascending(cidrs)
      invariant forall i :: 0 <= i < |cidrs| ==> home[i] < n && InHome(cidrs[i], merged[home[i]])
      invariant forall x: nat :: InBlocks(cidrs, x) <==> InRanges(merged[..n], x)
    {
      var part := RangeToCidrs(merged[n].start, merged[n].end);
      ghost var before := cidrs;
      assert merged[..n + 1] == merged[..n] + [merged[n]];
      AppendRange(merged[..n], merged[n]);
      AppendBlocks(before, part);
      cidrs := cidrs + part;
      home := home + seq(|part|, _ => n);
    }
    assert merged[..|merged|] == merged;
    ghost var all := cidrs;
    forall other: seq<Cidr> | AllAligned(other) && (forall x: nat :: InBlocks(other, x) <==> InRanges(ranges, x))
      ensures |all| <= |other|
    {
      MaximalCoverIsSmallest(all, home, merged, other);
    }
  }

  /** A block inside a range that no larger block inside the range contains. */
  ghost predicate InHome(b: Cidr, r: Range)
  {
    Inside(b, r.start, r.end) && Maximal(b, r.start, r.end)
  }

  lemma AppendBlocks(cs: seq<Cidr>, ds: seq<Cidr>)
    ensures forall x: nat :: InBlocks(cs + ds, x) <==> InBlocks(cs, x) || InBlocks(ds, x)
  {
    forall x: nat
      ensures InBlocks(cs + ds, x) <==> InBlocks(cs, x) || InBlocks(ds, x)
    {
      if InBlocks(cs, x) {
        var i :| 0 <= i < |cs| && cs[i].Holds(x);
        assert (cs + ds)[i].Holds(x);
      }
      if InBlocks(ds, x) {
        var i :| 0 <= i < |ds| && ds[i].Holds(x);
        assert (cs + ds)[|cs| + i].Holds(x);
      }
      if InBlocks(cs + ds, x) {
        var i :| 0 <= i < |cs + ds| && (cs + ds)[i].Holds(x);
        assert if i < |cs| then cs[i].Holds(x) else ds[i - |cs|].Holds(x);
      }
    }
  }

  lemma GapsAroundRange(rs: seq<Range>, k: nat)
    requires AllOk(rs) && Separated(rs) && k < |rs|
    ensures !InRanges(rs, rs[k].end + 1)
    ensures rs[k].start > 0 ==> !InRanges(rs, rs[k].start - 1)
  {
    forall j | 0 <= j < |rs|
      ensures !rs[j].Holds(rs[k].end + 1) && (rs[k].start > 0 ==> !rs[j].Holds(rs[k].start - 1))
    {
      assert j < k ==> rs[j].end + 1 < rs[k].start;
      assert k < j ==> rs[k].end + 1 < rs[j].start;
    }
  }

  /** An interval covered by separated ranges lies inside one of them. */
  lemma ConvexInOneRange(rs: seq<Range>, k: nat, lo: nat, x: nat, hi: nat)
    requires AllOk(rs) && Separated(rs) && k < |rs|
    requires lo <= x <= hi && rs[k].Holds(x)
    requires forall y: nat :: lo <= y <= hi ==> InRanges(rs, y)
    ensures rs[k].start <= lo && hi <= rs[k].end
  {
    GapsAroundRange(rs, k);
  }

  /** Charge every block of the list to a block of the other list that it contains. */
  lemma MaximalCoverIsSmallest(cs: seq<Cidr>, home: seq<nat>, rs: seq<Range>, other: seq<Cidr>)
    requires AllOk(rs) && Separated(rs)
    requires AllAligned(cs) && Ascending(cs) && |home| == |cs|
    requires forall i :: 0 <= i < |cs| ==> home[i] < |rs| && InHome(cs[i], rs[home[i]])
    requires AllAligned(other)
    requires forall x: nat :: InBlocks(other, x) <==> InRanges(rs, x)
    ensures |cs| <= |other|
  {
    var charge: seq<nat> := [];
    for i := 0 to |cs|
      invariant |charge| == i
      invariant forall n :: 0 <= n < i ==> charge[n] < |other| && Within(other[charge[n]], cs[n])
    {
      var j := ChargedBlock(cs[i], rs, home[i], other);
      charge := charge + [j];
    }
    forall m, n | 0 <= m < n < |cs|
      ensures charge[m] != charge[n]
    {
      assert Within(other[charge[m]], cs[m]) && Within(other[charge[n]], cs[n]);
    }
    Pigeonhole(charge, |other|);
  }

  ghost predicate Within(c: Cidr, b: Cidr)
  {
    b.addr <= c.addr && c.addr + Size(c) <= b.addr + Size(b)
  }

  lemma ChargedBlock(b: Cidr, rs: seq<Range>, k: nat, other: seq<Cidr>) returns (j: nat)
    requires AllOk(rs) && Separated(rs) && k < |rs|
    requires b.Aligned() && InHome(b, rs[k])
    requires AllAligned(other)
    requires forall x: nat :: InBlocks(other, x) <==> InRanges(rs, x)
    ensures j < |other| && Within(other[j], b)
  {
    assert rs[k].Holds(b.addr);
    assert InBlocks(other, b.addr);
    j :| 0 <= j < |other| && other[j].Holds(b.addr);
    var c := other[j];
    forall y: nat | c.addr <= y <= c.addr + Size(c) - 1
      ensures InRanges(rs, y)
    {
      assert c.Holds(y);
      assert InBlocks(other, y);
    }
    ConvexInOneRange(rs, k, c.addr, b.addr, c.addr + Size(c) - 1);
    assert c.prefix >= b.prefix;
    Laminar(b, c, b.addr);
  }

  lemma Pigeonhole(f: seq<nat>, n: nat)
    requires forall i :: 0 <= i < |f| ==> f[i] < n
    requires forall i, j :: 0 <= i < j < |f| ==> f[i] != f[j]
    ensures |f| <= n
    decreases n
  {
    if f != [] {
      var i := |f| - 1;
      var g := seq(i, k requires 0 <= k < i => if f[k] == n - 1 then f[i] else f[k]);
      Pigeonhole(g, n - 1);
    }
  }
}
