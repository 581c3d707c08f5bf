/**
 Which of a region's memory servers a new data item is put on.

 The metadata service accepts only powers of two as block size, and 0 where
 interleaving is off.
 */
module ServerChoice {
  import opened Layout
  import opened Allocation

  predicate IsPowerOfTwo(n: nat) { n == 1 || (n > 0 && n % 2 == 0 && IsPowerOfTwo(n / 2)) }

  /** The block sizes a region can have. */
  predicate BlockSize(enabled: bool, I: nat) { if enabled then IsPowerOfTwo(I) else I == 0 }

  lemma {:induction false} PowersDivide(n: nat, m: nat)
    requires IsPowerOfTwo(n) && IsPowerOfTwo(m) && m <= n
    ensures n % m == 0
  {
    if m > 1 {
      PowersDivide(n / 2, m / 2);
      var q := n / 2 / (m / 2);
      assert n / 2 == q * (m / 2);
      assert n == q * m;
      DivModOf(q, 0, m);
    }
  }

  /** A block size is small or a multiple of the allocation granule. */
  lemma SmallOrWhole(I: nat)
    requires IsPowerOfTwo(I)
    ensures I <= 64 || I % 64 == 0
  {
    if I > 64 {
      assert IsPowerOfTwo(2) && IsPowerOfTwo(4) && IsPowerOfTwo(8) && IsPowerOfTwo(16);
      assert IsPowerOfTwo(32) && IsPowerOfTwo(64);
      PowersDivide(I, 64);
    }
  }

  /** How many of the region's `used` servers an item of `size` bytes gets. */
  function ServerCount(size: nat, enabled: bool, I: nat, used: nat): (k: nat)
    requires used > 0 && (enabled ==> I > 0)
    ensures 0 < k
  {
    var n := Rounded(size);
    if !enabled || n <= I then 1 else NumServers(n, I, used)
  }

  /** One server for each block, as far as there are servers. */
  function NumServers(n: nat, I: nat, used: nat): (k: nat)
    requires used > 0 && 0 < I < n
    ensures 0 < k == if Blocks(n, I) < used then Blocks(n, I) else used
  {
    ManyBlocksIff(n, I, used);
    if n / (I * used) < 1 then BlocksPositive(n, I); Blocks(n, I) else used
  }

  lemma BlocksPositive(n: nat, I: nat)
    requires I > 0 && n > 0
    ensures Blocks(n, I) > 0
  {
    BlocksCover(n, I);
  }

  lemma QuotientLess(n: nat, m: nat)
    requires m > 0 && n / m < 1
    ensures n < m
  {
  }

  /** An item never gets more servers than its region has, nor more than its rounded size has blocks. */
  lemma CountBounded(size: nat, enabled: bool, I: nat, used: nat)
    requires used > 0 && (enabled ==> I > 0)
    ensures ServerCount(size, enabled, I, used) <= used
    ensures ServerCount(size, enabled, I, used) > 1 ==>
      I > 0 && ServerCount(size, enabled, I, used) <= Blocks(Rounded(size), I)
  {
    var n := Rounded(size);
    if enabled && n > I { assert NumServers(n, I, used) <= used; }
  }

  lemma BlocksAtMost(n: nat, I: nat, m: nat)
    requires I > 0
    ensures Blocks(n, I) <= m <==> n <= m * I
  {
    var b := Blocks(n, I);
    BlocksCover(n, I);
    if b <= m {
      MulMono(b, m, I);
    } else {
      MulMono(m + 1, b, I);
      assert (m + 1) * I == m * I + I;
    }
  }

  lemma FewBlocks(n: nat, I: nat, used: nat)
    requires I > 0 && n < I * used
    ensures Blocks(n, I) <= used
  {
    BlocksAtMost(n, I, used);
  }

  lemma ManyBlocksIff(n: nat, I: nat, used: nat)
    requires I > 0 && used > 0
    ensures n / (I * used) >= 1 ==> used <= Blocks(n, I)
    ensures n / (I * used) < 1 ==> Blocks(n, I) <= used
  {
    var m := I * used;
    if n / m < 1 {
      QuotientLess(n, m);
      FewBlocks(n, I, used);
    } else {
      ManyBlocks(n, I, used);
    }
  }

  lemma ManyBlocks(n: nat, I: nat, used: nat)
    requires I > 0 && used > 0 && n / (I * used) >= 1
    ensures used <= Blocks(n, I)
  {
    var m := I * used;
    assert n >= m;
    assert (used - 1) * I == m - I;
    BlocksAtMost(n, I, used - 1);
  }

  /** The servers, one after the other from a starting position on. */
  method FindMemoryServerListItem(size: nat, enabled: bool, I: nat, regionServers: seq<nat>, id: nat)
    returns (list: seq<nat>)
    requires id < |regionServers| && (enabled ==> I > 0)
    ensures |list| == ServerCount(size, enabled, I, |regionServers|) <= |regionServers|
    ensures forall i :: 0 <= i < |list| ==> list[i] == regionServers[(id + i) % |regionServers|]
  {
    var used := |regionServers|;
    CountBounded(size, enabled, I, used);
    var alignedSize := AlignTo64(size);
    var n := if alignedSize > size then alignedSize else size;
    if !enabled || n <= I {
      SmallMod(id, used);
      return [regionServers[id]];
    }
    list := TakeServers(regionServers, id, NumServers(n, I, used));
  }

  /** The loop over the servers, from position id on and around. */
  method TakeServers(regionServers: seq<nat>, id: nat, numServers: nat) returns (list: seq<nat>)
    requires regionServers != []
    ensures |list| == numServers
    ensures forall i :: 0 <= i < numServers ==> list[i] == regionServers[(id + i) % |regionServers|]
  {
    list := [];
    while |list| < numServers
      invariant |list| <= numServers
      invariant forall i :: 0 <= i < |list| ==> list[i] == regionServers[(id + i) % |regionServers|]
    {
      list := list + [regionServers[(id + |list|) % |regionServers|]];
    }
  }

  /** An item is put on no server twice. */
  lemma ServersDiffer(id: nat, i: nat, j: nat, used: nat)
    requires id < used && i < j < used
    ensures (id + i) % used != (id + j) % used
  {
    SmallMod(id + i, used);
    SmallMod(id + j, used);
  }

  lemma SmallMod(a: nat, used: nat)
    requires a < 2 * used
    ensures a % used == if a < used then a else a - used
  {
    if a < used { DivModOf(0, a, used); } else { DivModOf(1, a - used, used); }
  }

  /** Rounding up to whole granules does not add a block that is itself a multiple of them. */
  lemma RoundingKeepsBlocks(n: nat, I: nat)
    requires I > 0 && I % 64 == 0
    ensures Blocks(Rounded(n), I) == Blocks(n, I)
  {
    var b, r := Blocks(n, I), Rounded(n);
    BlocksCover(n, I);
    BlocksCover(r, I);
    assert r <= b * I by {
      if r > n { WholeGranules(n, I, b); }
    }
    BlocksAtMost(r, I, b);
    BlocksAtMost(n, I, Blocks(r, I));
  }

  lemma WholeGranules(n: nat, I: nat, b: nat)
    requires I > 0 && I % 64 == 0 && n <= b * I && Rounded(n) > n
    ensures Rounded(n) <= b * I
  {
    var q := I / 64;
    assert I == 64 * q;
    assert b * I == 64 * (b * q) by { assert b * (64 * q) == 64 * (b * q); }
    assert Rounded(n) == AlignTo64(n);
    AlignedBelow(n, b * q);
  }

  lemma AlignedBelow(n: nat, m: nat)
    requires n <= 64 * m && AlignTo64(n) > n
    ensures AlignTo64(n) <= 64 * m
  {
  }

  /** An item on several servers has a block for each of them, unless its blocks are smaller than a granule. */
  lemma BlocksForServers(n: nat, enabled: bool, I: nat, used: nat)
    requires used > 0 && BlockSize(enabled, I)
    ensures var k := ServerCount(n, enabled, I, used); k == 1 || (I > 0 && Blocks(n, I) >= k) || (0 < I < 64)
  {
    CountBounded(n, enabled, I, used);
    if enabled {
      SmallOrWhole(I);
      if I % 64 == 0 { RoundingKeepsBlocks(n, I); }
    }
  }
}
