/**
 The sizes that allocating and registering an interleaved data item request from
 each memory server.
 */
module Allocation {
  import opened Layout

  const MIN_OBJ_SIZE := 128
  const WORD_LIMIT := 0x1_0000_0000_0000_0000

  /** align_to_address(size, 64) on 64-bit words: masking with -64 clears the low six bits. */
  function AlignTo64(size: nat): nat { (size + 63) % WORD_LIMIT / 64 * 64 }

  /** Alignment never shrinks the request, even where the addition wraps around. */
  function Rounded(size: nat): (r: nat)
    ensures size <= r < size + 64
    ensures size + 63 < WORD_LIMIT ==> r % 64 == 0
  {
    if AlignTo64(size) > size then AlignTo64(size) else size
  }

  lemma RoundedMono(x: nat, y: nat)
    requires x <= y
    ensures Rounded(x) <= Rounded(y)
  {
    if x + 63 < WORD_LIMIT && y + 63 < WORD_LIMIT {
      assert (x + 63) / 64 <= (y + 63) / 64;
    } else if x + 63 < WORD_LIMIT {
      assert AlignTo64(x) <= (x + 63) / 64 * 64 <= WORD_LIMIT - 64;
    } else if x < WORD_LIMIT {
      assert (x + 63) % WORD_LIMIT < 64;
    }
  }

  predicate Interleaved(n: nat, I: nat) { I != 0 && n > I }

  /** Bytes of server i before alignment. */
  function RawSize(n: nat, I: nat, k: nat, i: nat): nat
    requires k > 0
  {
    if Interleaved(n, I) then Share(Blocks(n, I), k, i) * I else n
  }

  /** Bytes requested from server i. */
  function ServerSize(n: nat, I: nat, k: nat, i: nat): nat
    requires k > 0
  {
    var size := Rounded(RawSize(n, I, k, i));
    if size < MIN_OBJ_SIZE then MIN_OBJ_SIZE else size
  }

  /** A server's share of the blocks, as the size loops compute it. */
  lemma RawSizeSplit(n: nat, I: nat, k: nat, i: nat)
    requires Interleaved(n, I) && k > 0
    ensures RawSize(n, I, k, i) == Blocks(n, I) / k * I + if i < Blocks(n, I) % k then I else 0
  {
    var q := Blocks(n, I) / k;
    assert (q + 1) * I == q * I + I;
  }

  /** The size loop of allocate. */
  method AllocateSizes(nbytes: nat, interleaveSize: nat, usedMemsrvCnt: nat) returns (sizes: seq<nat>)
    requires usedMemsrvCnt > 0
    ensures |sizes| == usedMemsrvCnt
    ensures forall i :: 0 <= i < usedMemsrvCnt ==> sizes[i] == ServerSize(nbytes, interleaveSize, usedMemsrvCnt, i)
  {
    var numBlocksPerServer, extraBlocks := 0, 0;
    if interleaveSize != 0 {
      var blocks := nbytes / interleaveSize;
      if nbytes % interleaveSize != 0 { blocks := blocks + 1; }
      numBlocksPerServer := blocks / usedMemsrvCnt;
      extraBlocks := blocks % usedMemsrvCnt;
    }
    ghost var extra := extraBlocks;
    sizes := [];
    while |sizes| < usedMemsrvCnt
      invariant |sizes| <= usedMemsrvCnt
      invariant Interleaved(nbytes, interleaveSize) ==>
        extraBlocks == if |sizes| < extra then extra - |sizes| else 0
      invariant forall i :: 0 <= i < |sizes| ==> sizes[i] == ServerSize(nbytes, interleaveSize, usedMemsrvCnt, i)
    {
      var size;
      if interleaveSize != 0 && nbytes > interleaveSize {
        size := numBlocksPerServer * interleaveSize;
        if extraBlocks != 0 {
          size := size + interleaveSize;
          extraBlocks := extraBlocks - 1;
        }
        assert size == RawSize(nbytes, interleaveSize, usedMemsrvCnt, |sizes|) by {
          RawSizeSplit(nbytes, interleaveSize, usedMemsrvCnt, |sizes|);
        }
      } else {
        size := nbytes;
      }
      var alignedSize := AlignTo64(size);
      size := if alignedSize > size then alignedSize else size;
      if size < MIN_OBJ_SIZE { size := MIN_OBJ_SIZE; }
      sizes := sizes + [size];
    }
  }

  datatype DataItem = DataItem(size: nat, interleaveSize: nat, usedMemsrvCnt: nat)

  /** The size loop of register_dataitem_memory, from the stored metadata. */
  method RegisterSizes(d: DataItem) returns (sizes: seq<nat>)
    requires d.usedMemsrvCnt > 0
    ensures |sizes| == d.usedMemsrvCnt
    ensures forall i :: 0 <= i < d.usedMemsrvCnt ==>
      sizes[i] == ServerSize(d.size, d.interleaveSize, d.usedMemsrvCnt, i)
  {
    var blocks := if d.interleaveSize == 0 then 0 else Blocks(d.size, d.interleaveSize);
    var numBlocksPerServer, extraBlocks := blocks / d.usedMemsrvCnt, blocks % d.usedMemsrvCnt;
    ghost var extra := extraBlocks;
    sizes := [];
    for idx := 0 to d.usedMemsrvCnt
      invariant |sizes| == idx
      invariant Interleaved(d.size, d.interleaveSize) ==> extraBlocks == if idx < extra then extra - idx else 0
      invariant forall i :: 0 <= i < idx ==> sizes[i] == ServerSize(d.size, d.interleaveSize, d.usedMemsrvCnt, i)
    {
      var size := d.size;
      if d.interleaveSize != 0 && d.size > d.interleaveSize {
        size := numBlocksPerServer * d.interleaveSize;
        if extraBlocks != 0 {
          size := size + d.interleaveSize;
          extraBlocks := extraBlocks - 1;
        }
        assert size == RawSize(d.size, d.interleaveSize, d.usedMemsrvCnt, idx) by {
          RawSizeSplit(d.size, d.interleaveSize, d.usedMemsrvCnt, idx);
        }
      }
      size := Rounded(size);
      if size < MIN_OBJ_SIZE { size := MIN_OBJ_SIZE; }
      sizes := sizes + [size];
    }
  }

  /** Where logical byte b of an item lives: an item of one block is not interleaved. */
  function ItemServer(b: nat, n: nat, I: nat, k: nat): nat
    requires k > 0
  {
    if Interleaved(n, I) then Server(b, I, k) else 0
  }

  function ItemLocal(b: nat, n: nat, I: nat, k: nat): nat
    requires k > 0
  {
    if Interleaved(n, I) then Local(b, I, k) else b
  }

  /** Local position l of server sv belongs to the raw size exactly if its block is one of the
      item's blocks. */
  lemma RawSizeExact(n: nat, I: nat, k: nat, sv: nat, l: nat)
    requires Interleaved(n, I) && sv < k
    ensures l < RawSize(n, I, k, sv) <==> Logical(sv, l, I, k) < Blocks(n, I) * I
  {
    DivSplit(l, I);
    ShareExact(Blocks(n, I), k, sv, l / I);
    RowsAndBlocks(l / I, Share(Blocks(n, I), k, sv), l / I * k + sv, Blocks(n, I), l % I, I);
  }

  /** Offset o of a row is below a number of rows exactly if that offset of its block is below the blocks. */
  lemma RowsAndBlocks(row: nat, rows: nat, block: nat, blocks: nat, o: nat, I: nat)
    requires o < I && (row < rows <==> block < blocks)
    ensures row * I + o < rows * I <==> block * I + o < blocks * I
  {
    BelowMultiple(row, o, rows, I);
    BelowMultiple(block, o, blocks, I);
  }

  lemma BelowMultiple(q: nat, r: nat, m: nat, I: nat)
    requires r < I
    ensures q * I + r < m * I <==> q < m
  {
    if q < m {
      MulMono(q + 1, m, I);
      assert (q + 1) * I == q * I + I;
    } else {
      MulMono(m, q, I);
    }
  }

  /** Every byte of the item fits in what is requested from its server. */
  lemma ItemFits(b: nat, n: nat, I: nat, k: nat)
    requires b < n && k > 0
    ensures ItemServer(b, n, I, k) < k
    ensures ItemLocal(b, n, I, k) < RawSize(n, I, k, ItemServer(b, n, I, k))
         <= ServerSize(n, I, k, ItemServer(b, n, I, k))
  {
    if Interleaved(n, I) {
      LayoutRoundTrip(b, I, k);
      BlocksCover(n, I);
      RawSizeExact(n, I, k, Server(b, I, k), Local(b, I, k));
    }
  }

  /** No two bytes of an item share a place. */
  lemma ItemPlacesDistinct(b: nat, b': nat, n: nat, I: nat, k: nat)
    requires k > 0 && b != b'
    ensures ItemServer(b, n, I, k) != ItemServer(b', n, I, k) || ItemLocal(b, n, I, k) != ItemLocal(b', n, I, k)
  {
    if Interleaved(n, I) {
      LayoutRoundTrip(b, I, k);
      LayoutRoundTrip(b', I, k);
    }
  }

  function SumRaw(n: nat, I: nat, k: nat, upto: nat): nat
    requires k > 0
  {
    if upto == 0 then 0 else SumRaw(n, I, k, upto - 1) + RawSize(n, I, k, upto - 1)
  }

  lemma {:induction false} SumRawIs(n: nat, I: nat, k: nat, upto: nat)
    requires Interleaved(n, I) && k > 0
    ensures SumRaw(n, I, k, upto) == SumShares(Blocks(n, I), k, upto) * I
  {
    if upto > 0 {
      SumRawIs(n, I, k, upto - 1);
      TimesAdd(SumShares(Blocks(n, I), k, upto - 1), Share(Blocks(n, I), k, upto - 1), I);
    }
  }

  /** The requests before alignment add up to the item rounded up to whole blocks. */
  lemma RawSizesAddUp(n: nat, I: nat, k: nat)
    requires Interleaved(n, I) && k > 0
    ensures SumRaw(n, I, k, k) == Blocks(n, I) * I
    ensures n <= SumRaw(n, I, k, k) < n + I
  {
    SumRawIs(n, I, k, k);
    SharesAddUp(Blocks(n, I), k);
    BlocksCover(n, I);
  }
}
