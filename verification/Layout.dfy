/**
 The interleaved layout of a data item: blocks of `I` bytes dealt round-robin to
 `k` memory servers, and the size split that allocation requests for it.
 */
module Layout {
  type Byte = b: nat | b < 256

  // -------------------------------------------------------------------------
  // Division with remainder

  lemma MulMono(a: nat, b: nat, k: nat)
    requires a <= b
    ensures a * k <= b * k
  {
  }

  lemma NextTimes(a: nat, k: nat)
    ensures (a + 1) * k == a * k + k
  {
  }

  lemma TimesAdd(a: nat, b: nat, k: nat)
    ensures (a + b) * k == a * k + b * k
  {
  }

  lemma QuotientUnique(q: nat, r: nat, q': nat, r': nat, k: nat)
    requires r < k && r' < k && q * k + r == q' * k + r'
    ensures q == q' && r == r'
  {
    if q < q' {
      MulMono(q + 1, q', k);
    } else if q' < q {
      MulMono(q' + 1, q, k);
    }
  }

  lemma DivSplit(p: nat, k: nat)
    requires k > 0
    ensures p == p / k * k + p % k
  {
  }

  lemma DivModOf(q: nat, r: nat, k: nat)
    requires r < k
    ensures (q * k + r) / k == q && (q * k + r) % k == r
  {
    var a := q * k + r;
    QuotientUnique(q, r, a / k, a % k, k);
  }

  // -------------------------------------------------------------------------
  // The layout and its inverse

  function Server(b: nat, I: nat, k: nat): nat
    requires I > 0 && k > 0
  {
    (b / I) % k
  }

  function Local(b: nat, I: nat, k: nat): nat
    requires I > 0 && k > 0
  {
    var block: nat := b / I;
    var row: nat := block / k;
    row * I + b % I
  }

  /** The logical byte at local position l of server sv. */
  function Logical(sv: nat, l: nat, I: nat, k: nat): nat
    requires I > 0 && k > 0
  {
    var row: nat := l / I;
    var block: nat := row * k + sv;
    block * I + l % I
  }

  /** Every logical byte is found again at its server and local position: the layout is injective. */
  lemma LayoutRoundTrip(b: nat, I: nat, k: nat)
    requires I > 0 && k > 0
    ensures Server(b, I, k) < k
    ensures Logical(Server(b, I, k), Local(b, I, k), I, k) == b
  {
    var j := b / I;
    var l := Local(b, I, k);
    assert l / I == j / k && l % I == b % I by { DivModOf(j / k, b % I, I); }
    assert j / k * k + j % k == j;
    assert j * I + b % I == b;
  }

  /** The block of a place, and its offset there. */
  lemma LogicalBlock(sv: nat, l: nat, I: nat, k: nat)
    requires I > 0 && sv < k
    ensures Logical(sv, l, I, k) / I == l / I * k + sv
    ensures Logical(sv, l, I, k) % I == l % I
  {
    DivModOf(l / I * k + sv, l % I, I);
  }

  /** Every local position is the place of exactly the logical byte it stands for. */
  lemma LogicalRoundTrip(sv: nat, l: nat, I: nat, k: nat)
    requires I > 0 && sv < k
    ensures Server(Logical(sv, l, I, k), I, k) == sv
    ensures Local(Logical(sv, l, I, k), I, k) == l
  {
    LogicalBlock(sv, l, I, k);
    DivModOf(l / I, sv, k);
    DivSplit(l, I);
  }

  // -------------------------------------------------------------------------
  // The size split

  function Blocks(n: nat, I: nat): nat
    requires I > 0
  {
    n / I + if n % I != 0 then 1 else 0
  }

  /** Blocks is the number of blocks that cover n bytes. */
  lemma BlocksCover(n: nat, I: nat)
    requires I > 0
    ensures n <= Blocks(n, I) * I < n + I
    ensures forall b: nat :: b < n ==> b / I < Blocks(n, I)
  {
    var d := n / I;
    assert n == d * I + n % I;
    assert (d + 1) * I == d * I + I;
    forall b: nat | b < n ensures b / I < Blocks(n, I) {
      assert b == b / I * I + b % I;
      if b / I >= Blocks(n, I) {
        MulMono(Blocks(n, I), b / I, I);
      }
    }
  }

  lemma BlocksMono(m: nat, n: nat, I: nat)
    requires I > 0 && m <= n
    ensures Blocks(m, I) <= Blocks(n, I)
  {
    BlocksCover(m, I);
    BlocksCover(n, I);
    if Blocks(n, I) < Blocks(m, I) {
      assert (Blocks(n, I) + 1) * I == Blocks(n, I) * I + I;
      MulMono(Blocks(n, I) + 1, Blocks(m, I), I);
    }
  }

  /** Blocks dealt to server i. */
  function Share(blocks: nat, k: nat, i: nat): nat
    requires k > 0
  {
    blocks / k + if i < blocks % k then 1 else 0
  }

  /** Server i holds exactly the blocks j with j % k == i: rows below its share. */
  lemma ShareExact(blocks: nat, k: nat, i: nat, row: nat)
    requires i < k
    ensures row < Share(blocks, k, i) <==> row * k + i < blocks
  {
    var q := blocks / k;
    assert blocks == q * k + blocks % k;
    if row < q {
      MulMono(row + 1, q, k);
      assert (row + 1) * k == row * k + k;
    } else if row > q {
      MulMono(q + 1, row, k);
      assert (q + 1) * k == q * k + k;
    }
  }

  lemma ShareMono(m: nat, n: nat, k: nat, i: nat)
    requires i < k && m <= n
    ensures Share(m, k, i) <= Share(n, k, i)
  {
    if Share(n, k, i) < Share(m, k, i) {
      ShareExact(m, k, i, Share(n, k, i));
      ShareExact(n, k, i, Share(n, k, i));
    }
  }

  function SumShares(blocks: nat, k: nat, upto: nat): nat
    requires k > 0
  {
    if upto == 0 then 0 else SumShares(blocks, k, upto - 1) + Share(blocks, k, upto - 1)
  }

  /** Server u's share on top of those of the servers before it. */
  lemma ShareOnTop(u: nat, q: nat, m: nat)
    ensures u * q + (if u < m then u else m) + q + (if u < m then 1 else 0) ==
      (u + 1) * q + if u + 1 < m then u + 1 else m
  {
    TimesAdd(u, 1, q);
  }

  /** With q blocks for every server and one more for the first m. */
  lemma {:induction false} SumSharesIs(blocks: nat, k: nat, q: nat, m: nat, upto: nat)
    requires k > 0 && q == blocks / k && m == blocks % k
    ensures SumShares(blocks, k, upto) == upto * q + if upto < m then upto else m
  {
    if upto > 0 {
      SumSharesIs(blocks, k, q, m, upto - 1);
      ShareOnTop(upto - 1, q, m);
    }
  }

  /** No block is lost or dealt twice. */
  lemma SharesAddUp(blocks: nat, k: nat)
    requires k > 0
    ensures SumShares(blocks, k, k) == blocks
  {
    SumSharesIs(blocks, k, blocks / k, blocks % k, k);
    DivSplit(blocks, k);
  }
}
