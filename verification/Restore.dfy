/**
 Restore from a backup file into a data item with its own servers and block size.
 */
module Restore {
  import opened Layout
  import opened Allocation
  import opened ServerChoice
  import opened Backup

  /** Every byte of the first `rounds` chunks of a job is the file byte at its logical place. */
  predicate RestoredJob(mem: seq<Byte>, file: seq<Byte>, rounds: nat, chunk: nat, used: nat, start: nat)
    requires chunk > 0 && used > 0
  {
    rounds * chunk <= |mem| && forall l :: 0 <= l < rounds * chunk ==> RestoredAt(mem, file, l, chunk, used, start)
  }

  predicate RestoredAt(mem: seq<Byte>, file: seq<Byte>, l: nat, chunk: nat, used: nat, start: nat)
    requires chunk > 0 && used > 0 && l < |mem|
  {
    var p := Logical(start, l, chunk, used);
    p < |file| && mem[l] == file[p]
  }

  /** The file reaches to the end of the job's last chunk. */
  predicate LongEnough(file: seq<Byte>, rounds: nat, chunk: nat, used: nat, start: nat) {
    rounds > 0 ==> Slot(rounds - 1, used, start, chunk) + chunk <= |file|
  }

  /** Slots of one job only move forward. */
  lemma SlotMono(r: nat, r': nat, used: nat, start: nat, chunk: nat)
    requires r <= r'
    ensures Slot(r, used, start, chunk) <= Slot(r', used, start, chunk)
  {
    MulMono(r, r', used);
    MulMono(r * used + start, r' * used + start, chunk);
  }

  /** Byte j of chunk r is the byte at local position r * chunk + j. */
  lemma PlaceInSlot(r: nat, j: nat, used: nat, start: nat, chunk: nat)
    requires j < chunk && used > 0
    ensures Logical(start, r * chunk + j, chunk, used) == Slot(r, used, start, chunk) + j
  {
    DivModOf(r, j, chunk);
  }

  /** Memserver_Allocator::restore.  A short read throws after copying what it read. */
  method RestoreJob(heap: array<Byte>, destOffset: nat, size: nat, chunk: nat, used: nat, start: nat, file: seq<Byte>)
    returns (ok: bool)
    requires (chunk > 0 || size == 0) && used > 0 && destOffset + ChunksOf(size, chunk) * chunk <= heap.Length
    modifies heap
    ensures ok <==> LongEnough(file, ChunksOf(size, chunk), chunk, used, start)
    ensures ok && chunk > 0 ==> RestoredJob(heap[destOffset..], file, ChunksOf(size, chunk), chunk, used, start)
    ensures forall x :: 0 <= x < heap.Length && !(destOffset <= x < destOffset + ChunksOf(size, chunk) * chunk) ==>
      heap[x] == old(heap[x])
  {
    var filePos, famPtr := start * chunk, 0;
    ghost var r, n := 0, ChunksOf(size, chunk);
    ghost var total := n * chunk;
    while famPtr < size
      invariant r <= n && famPtr == r * chunk <= total && filePos == Slot(r, used, start, chunk)
      invariant LongEnough(file, r, chunk, used, start)
      invariant chunk > 0 ==> RestoredJob(heap[destOffset..], file, r, chunk, used, start)
      invariant forall x :: 0 <= x < heap.Length && !(destOffset <= x < destOffset + total) ==> heap[x] == old(heap[x])
      decreases n - r
    {
      assert r < n && famPtr + chunk == (r + 1) * chunk <= total by {
        MoreChunks(r, size, chunk);
        NextTimes(r, chunk);
      }
      ok := RestoreChunk(heap, destOffset, famPtr, file, filePos, chunk, used, start, r);
      if !ok {
        assert !LongEnough(file, n, chunk, used, start) by { SlotMono(r, n - 1, used, start, chunk); }
        return;
      }
      assert Slot(r + 1, used, start, chunk) == filePos + used * chunk by { NextSlot(r, used, start, chunk); }
      famPtr := famPtr + chunk;
      filePos := filePos + used * chunk;
      r := r + 1;
    }
    assert r == n by { MoreChunks(r, size, chunk); }
    ok := true;
  }

  /** One round of the loop; `r` counts the rounds before it. */
  method RestoreChunk(heap: array<Byte>, destOffset: nat, famPtr: nat, file: seq<Byte>, filePos: nat,
                      chunk: nat, used: nat, start: nat, ghost r: nat) returns (ok: bool)
    requires chunk > 0 && used > 0 && destOffset + famPtr + chunk <= heap.Length
    requires famPtr == r * chunk && filePos == Slot(r, used, start, chunk)
    requires RestoredJob(heap[destOffset..], file, r, chunk, used, start)
    modifies heap
    ensures ok <==> filePos + chunk <= |file|
    ensures ok ==> RestoredJob(heap[destOffset..], file, r + 1, chunk, used, start)
    ensures forall x :: 0 <= x < heap.Length && !(destOffset <= x < destOffset + famPtr + chunk) ==>
      heap[x] == old(heap[x])
  {
    ghost var before := heap[destOffset..];
    ok := ReadChunk(heap, destOffset + famPtr, file, filePos, chunk);
    if ok {
      ghost var after := heap[destOffset..];
      assert after[famPtr..famPtr + chunk] == heap[destOffset + famPtr..destOffset + famPtr + chunk];
      assert after[..famPtr] == before[..famPtr];
      ChunkRestored(before, after, file, r, chunk, used, start, famPtr, filePos);
    }
  }

  /** fread of one chunk at filePos into heap[at..]; a short read still copies what there is. */
  method ReadChunk(heap: array<Byte>, at: nat, file: seq<Byte>, filePos: nat, chunk: nat) returns (ok: bool)
    requires at + chunk <= heap.Length && chunk > 0
    modifies heap
    ensures ok <==> filePos + chunk <= |file|
    ensures ok ==> heap[at..at + chunk] == file[filePos..filePos + chunk]
    ensures forall x :: 0 <= x < heap.Length && !(at <= x < at + chunk) ==> heap[x] == old(heap[x])
  {
    var got := if |file| <= filePos then 0 else if |file| < filePos + chunk then |file| - filePos else chunk;
    forall j | 0 <= j < got { heap[at + j] := file[filePos + j]; }
    ok := got == chunk;
  }

  lemma ChunkRestored(before: seq<Byte>, mem: seq<Byte>, file: seq<Byte>, r: nat, chunk: nat, used: nat, start: nat,
                      base: nat, slot: nat)
    requires chunk > 0 && used > 0 && RestoredJob(before, file, r, chunk, used, start)
    requires base == r * chunk && slot == Slot(r, used, start, chunk)
    requires base + chunk <= |mem| && slot + chunk <= |file| && |mem| == |before|
    requires mem[base..base + chunk] == file[slot..slot + chunk] && mem[..base] == before[..base]
    ensures RestoredJob(mem, file, r + 1, chunk, used, start)
  {
    NextTimes(r, chunk);
    forall l | 0 <= l < (r + 1) * chunk ensures RestoredAt(mem, file, l, chunk, used, start) {
      if l < base {
        assert RestoredAt(before, file, l, chunk, used, start);
        assert mem[..base][l] == before[..base][l];
      } else {
        PlaceInSlot(r, l - base, used, start, chunk);
        assert mem[base..base + chunk][l - base] == file[slot..slot + chunk][l - base];
      }
    }
  }

  // -------------------------------------------------------------------------
  // The whole restore

  /** Server i has a block of a backup of m bytes: blocks are dealt out from server 0 on, and a backup
      that is not spread is all on server 0. */
  predicate HasBlock(m: nat, I: nat, k: nat, i: nat) { if Spread(m, I, k) then i < k && i < Blocks(m, I) else i == 0 }

  /** File blocks that a restore of m bytes reads. */
  function NeededBlocks(m: nat, I: nat, k: nat): nat
    requires k > 0
  {
    if !Spread(m, I, k) then 1 else FileBlocks(m, I, k)
  }

  /** Every job's chunks are in the file. */
  predicate NoShortRead(file: seq<Byte>, m: nat, I: nat, k: nat)
    requires k > 0
  {
    forall i :: 0 <= i < k && HasBlock(m, I, k, i) ==>
      LongEnough(file, Rounds(m, I, k, i), MakePlan(m, I, k).chunk, k, i)
  }

  /** No job meets a short read if and only if the file has every block the restore reads. */
  lemma NoShortReadIff(file: seq<Byte>, m: nat, I: nat, k: nat)
    requires k > 0
    ensures NoShortRead(file, m, I, k) <==> NeededBlocks(m, I, k) * MakePlan(m, I, k).chunk <= |file|
  {
    if Spread(m, I, k) {
      if FileBlocks(m, I, k) * I <= |file| {
        forall i | 0 <= i < k && HasBlock(m, I, k, i) ensures LongEnough(file, Rounds(m, I, k, i), I, k, i) {
          SlotFits(file, m, I, k, i);
        }
      } else if NoShortRead(file, m, I, k) {
        LastSlotNeedsFile(file, m, I, k);
      }
    } else {
      assert HasBlock(m, I, k, 0);
      assert NoShortRead(file, m, I, k) <==> LongEnough(file, Rounds(m, I, k, 0), m, k, 0);
      assert Slot(0, k, 0, m) == 0;
    }
  }

  lemma LastSlotNeedsFile(file: seq<Byte>, m: nat, I: nat, k: nat)
    requires k > 0 && Spread(m, I, k) && NoShortRead(file, m, I, k)
    ensures FileBlocks(m, I, k) * I <= |file|
  {
    var i, r := LastSlot(m, I, k);
    LastSlotIsRead(m, I, k, i, r);
    assert LongEnough(file, Rounds(m, I, k, i), I, k, i);
    SlotMono(r, Rounds(m, I, k, i) - 1, k, i, I);
    NextTimes(r * k + i, I);
  }

  lemma SlotFits(file: seq<Byte>, m: nat, I: nat, k: nat, i: nat)
    requires i < k && Spread(m, I, k) && FileBlocks(m, I, k) * I <= |file|
    ensures LongEnough(file, Rounds(m, I, k, i), I, k, i)
  {
    var rounds := Rounds(m, I, k, i);
    if rounds > 0 {
      SlotInFile(m, I, k, i, rounds - 1);
      var q := (rounds - 1) * k + i;
      MulMono(q + 1, FileBlocks(m, I, k), I);
      NextTimes(q, I);
    }
  }

  lemma LastSlotIsRead(m: nat, I: nat, k: nat, i: nat, r: nat)
    requires Spread(m, I, k) && i < k && r < Rounds(m, I, k, i) && r * k + i == FileBlocks(m, I, k) - 1
    ensures HasBlock(m, I, k, i)
  {
    var blocks := Blocks(m, I);
    if blocks < k {
      DivModOf(0, blocks, k);
      BlocksCover(m, I);
    }
  }

  datatype Outcome = Restored | TooLarge | ShortRead

  /** Server i's heap is unchanged outside what the restore writes. */
  ghost predicate Untouched(now: seq<Byte>, was: seq<Byte>, i: nat, offset: nat, m: nat, I: nat, k: nat)
    requires k > 0
  {
    && |now| == |was|
    && forall x :: 0 <= x < |now| && !(offset <= x < offset + Rounds(m, I, k, i) * MakePlan(m, I, k).chunk)
         ==> now[x] == was[x]
  }

  /** Server i's heap, from the item on, holds what job i reads from the file. */
  ghost predicate JobDone(heap: seq<Byte>, offset: nat, file: seq<Byte>, m: nat, I: nat, k: nat, i: nat)
    requires k > 0
  {
    && offset <= |heap|
    && (m > 0 ==> MakePlan(m, I, k).chunk > 0
                  && RestoredJob(heap[offset..], file, Rounds(m, I, k, i), MakePlan(m, I, k).chunk, k, i))
  }

  predicate HeapReaches(heap: array<Byte>, offset: nat, m: nat, I: nat, k: nat, i: nat)
    requires k > 0
  {
    offset + Rounds(m, I, k, i) * MakePlan(m, I, k).chunk <= heap.Length
  }

  /** Job i, with the size its plan gives it. */
  method RunJob(heap: array<Byte>, offset: nat, size: nat, file: seq<Byte>, m: nat, I: nat, k: nat, i: nat)
    returns (ok: bool)
    requires k > 0 && HeapReaches(heap, offset, m, I, k, i) && size == JobSize(MakePlan(m, I, k), I, i)
    modifies heap
    ensures ok <==> LongEnough(file, Rounds(m, I, k, i), MakePlan(m, I, k).chunk, k, i)
    ensures ok ==> JobDone(heap[..], offset, file, m, I, k, i)
    ensures Untouched(heap[..], old(heap[..]), i, offset, m, I, k)
  {
    var chunk := MakePlan(m, I, k).chunk;
    assert size == Rounds(m, I, k, i) * chunk && ChunksOf(size, chunk) == Rounds(m, I, k, i) by {
      JobSizeIsRounds(m, I, k, i);
      ChunksOfMultiple(Rounds(m, I, k, i), chunk);
    }
    ok := RestoreJob(heap, offset, size, chunk, k, i, file);
    assert heap[..][offset..] == heap[offset..];
  }

  /** Fam_CIS_Direct::restore.  Jobs write separate heaps and only read the file, so their order
      does not matter. */
  method Restore(heaps: seq<array<Byte>>, offsets: seq<nat>, destSize: nat, I: nat, infoSize: nat, file: seq<Byte>)
    returns (r: Outcome)
    requires |heaps| == |offsets| && |heaps| > 0
    requires forall i, j :: 0 <= i < j < |heaps| ==> heaps[i] != heaps[j]
    requires forall i :: 0 <= i < |heaps| ==> HeapReaches(heaps[i], offsets[i], infoSize, I, |heaps|, i)
    modifies set i | 0 <= i < |heaps| :: heaps[i]
    ensures r.TooLarge? <==> destSize < infoSize
    ensures r.Restored? <==>
      (infoSize <= destSize && NeededBlocks(infoSize, I, |heaps|) * MakePlan(infoSize, I, |heaps|).chunk <= |file|)
    ensures r.Restored? ==> forall i :: 0 <= i < |heaps| && HasBlock(infoSize, I, |heaps|, i) ==>
      JobDone(heaps[i][..], offsets[i], file, infoSize, I, |heaps|, i)
    ensures forall i :: 0 <= i < |heaps| ==>
      if r.TooLarge? || !HasBlock(infoSize, I, |heaps|, i) then heaps[i][..] == old(heaps[i][..])
      else Untouched(heaps[i][..], old(heaps[i][..]), i, offsets[i], infoSize, I, |heaps|)
  {
    if destSize < infoSize { return TooLarge; }
    var k := |heaps|;
    var plan := MakePlan(infoSize, I, k);
    var iterations := if plan.blocks > k then k else plan.blocks;
    var extraBlocks, failed := plan.extra, false;
    for i := 0 to iterations
      invariant extraBlocks == if i < plan.extra then plan.extra - i else 0
      invariant !failed <==> forall n :: 0 <= n < i ==> LongEnough(file, Rounds(infoSize, I, k, n), plan.chunk, k, n)
      invariant !failed ==> forall n :: 0 <= n < i ==> JobDone(heaps[n][..], offsets[n], file, infoSize, I, k, n)
      invariant forall n :: i <= n < k ==> heaps[n][..] == old(heaps[n][..])
      invariant forall n :: 0 <= n < i ==> Untouched(heaps[n][..], old(heaps[n][..]), n, offsets[n], infoSize, I, k)
    {
      var size := plan.sizePerServer;
      if extraBlocks != 0 {
        size := size + I;
        extraBlocks := extraBlocks - 1;
      }
      var ok := RunJob(heaps[i], offsets[i], size, file, infoSize, I, k, i);
      if !ok { failed := true; }
    }
    NoShortReadIff(file, infoSize, I, k);
    r := if failed then ShortRead else Restored;
  }

  // -------------------------------------------------------------------------
  // Round trip and bounds

  lemma BlockBelow(b: nat, m: nat, I: nat)
    requires I > 0 && b < m
    ensures b / I < Blocks(m, I)
  {
    BlocksCover(m, I);
    ByChunk(b, I, Blocks(m, I));
  }

  lemma SmallRemainder(j: nat, k: nat)
    requires j < k
    ensures j % k == j
  {
  }

  /** The server of a byte of the backup has a block of it. */
  lemma ServerHasBlock(b: nat, m: nat, I: nat, k: nat)
    requires Spread(m, I, k) && b < m
    ensures HasBlock(m, I, k, Server(b, I, k))
  {
    BlockBelow(b, m, I);
    var j, blocks := b / I, Blocks(m, I);
    if blocks < k { SmallRemainder(j, k); }
  }

  /** A backup that is not spread lies in the first block, or on the only server. */
  lemma UnspreadPlace(b: nat, m: nat, n: nat, I: nat, k: nat)
    requires b < m && k > 0 && !Spread(m, I, k)
    ensures ItemServer(b, n, I, k) == 0 && ItemLocal(b, n, I, k) == b
  {
    if Interleaved(n, I) {
      if k == 1 {
        OneServer(b, I);
      } else {
        DivModOf(0, b, I);
        DivModOf(0, 0, k);
      }
    }
  }

  /** Where byte b of the destination lives, some job puts file byte b. */
  lemma DestInJob(b: nat, m: nat, n: nat, I: nat, k: nat)
    requires b < m <= n && k > 0
    ensures MakePlan(m, I, k).chunk > 0
    ensures var sv, l, c := ItemServer(b, n, I, k), ItemLocal(b, n, I, k), MakePlan(m, I, k).chunk;
      && sv < k && HasBlock(m, I, k, sv) && l < Rounds(m, I, k, sv) * c && Logical(sv, l, c, k) == b
  {
    if Spread(m, I, k) {
      ItemInJob(b, m, I, k);
      ServerHasBlock(b, m, I, k);
    } else {
      UnspreadPlace(b, m, n, I, k);
      DivModOf(0, b, m);
    }
  }

  /** A server has a block of a backup if and only if some byte of the backup lives there. */
  lemma HasBlockIff(m: nat, n: nat, I: nat, k: nat, i: nat)
    requires 0 < m <= n && i < k
    ensures HasBlock(m, I, k, i) <==> exists b: nat :: b < m && ItemServer(b, n, I, k) == i
  {
    if HasBlock(m, I, k, i) {
      var b := if Spread(m, I, k) then i * I else 0;
      if Spread(m, I, k) {
        BlocksAtMost(m, I, i);
        DivModOf(i, 0, I);
        SmallRemainder(i, k);
      } else {
        UnspreadPlace(0, m, n, I, k);
      }
      assert b < m && ItemServer(b, n, I, k) == i;
    }
    forall b: nat | b < m && ItemServer(b, n, I, k) == i ensures HasBlock(m, I, k, i) { DestInJob(b, m, n, I, k); }
  }

  /** Byte b of a restored item, read from the servers' heaps. */
  function DestByte(heaps: seq<seq<Byte>>, offsets: seq<nat>, n: nat, I: nat, b: nat): Byte
    requires |heaps| == |offsets| && |heaps| > 0 && ItemServer(b, n, I, |heaps|) < |heaps|
    requires var sv := ItemServer(b, n, I, |heaps|); offsets[sv] + ItemLocal(b, n, I, |heaps|) < |heaps[sv]|
  {
    var sv := ItemServer(b, n, I, |heaps|);
    heaps[sv][offsets[sv] + ItemLocal(b, n, I, |heaps|)]
  }

  ghost predicate JobsDone(heaps: seq<seq<Byte>>, offsets: seq<nat>, file: seq<Byte>, m: nat, I: nat)
    requires |heaps| > 0
  {
    && |heaps| == |offsets|
    && forall i :: 0 <= i < |heaps| && HasBlock(m, I, |heaps|, i) ==>
         JobDone(heaps[i], offsets[i], file, m, I, |heaps|, i)
  }

  /** Whatever the layouts of source and destination, after a backup and a restore that met no
      short read, byte b of the destination is byte b of the source. */
  lemma RestoreAfterBackup(src: seq<seq<Byte>>, srcSize: nat, srcI: nat, file: seq<Byte>,
                           heaps: seq<seq<Byte>>, offsets: seq<nat>, destSize: nat, destI: nat, b: nat)
    requires JobsReadHeap(src, srcSize, srcI) && Linearised(file, src, srcSize, srcI)
    requires |heaps| > 0 && JobsDone(heaps, offsets, file, srcSize, destI)
    requires b < srcSize <= destSize
    ensures var sv := ItemServer(b, destSize, destI, |heaps|);
      sv < |heaps| && offsets[sv] + ItemLocal(b, destSize, destI, |heaps|) < |heaps[sv]|
    ensures DestByte(heaps, offsets, destSize, destI, b) ==
      (ItemInJob(b, srcSize, srcI, |src|); ItemByte(src, srcSize, srcI, b))
  {
    var k := |heaps|;
    DestInJob(b, srcSize, destSize, destI, k);
    var sv, l := ItemServer(b, destSize, destI, k), ItemLocal(b, destSize, destI, k);
    assert JobDone(heaps[sv], offsets[sv], file, srcSize, destI, k, sv);
    assert RestoredAt(heaps[sv][offsets[sv]..], file, l, MakePlan(srcSize, destI, k).chunk, k, sv);
    assert LinearAt(file, src, srcSize, srcI, b);
  }

  /** What a restore of m bytes leaves alone: servers without a block of the backup, and on the others
      what its job does not write. */
  ghost predicate OthersKept(now: seq<seq<Byte>>, was: seq<seq<Byte>>, offsets: seq<nat>, m: nat, I: nat) {
    && |now| == |was| == |offsets| > 0
    && forall i :: 0 <= i < |now| ==>
         if HasBlock(m, I, |now|, i) then Untouched(now[i], was[i], i, offsets[i], m, I, |now|) else now[i] == was[i]
  }

  /** Byte b of the destination lies in a block of a backup of m bytes. */
  predicate InBackup(b: nat, m: nat, I: nat, k: nat) { if Spread(m, I, k) then b / I < Blocks(m, I) else b < m }

  /** The bytes of a destination that a restore of m bytes writes: those of the backup's blocks and, where
      there are fewer of them than servers, of as many blocks in the second row. */
  predicate Overwritten(b: nat, m: nat, I: nat, k: nat) {
    || InBackup(b, m, I, k)
    || (Spread(m, I, k) && Blocks(m, I) < k && k <= b / I < k + Blocks(m, I))
  }

  /** Byte b is overwritten if and only if its place is in the part of its server that a job writes. */
  lemma OverwrittenIff(b: nat, m: nat, n: nat, I: nat, k: nat)
    requires b < n && m <= n && k > 0
    ensures var sv := ItemServer(b, n, I, k);
      Overwritten(b, m, I, k) <==>
      HasBlock(m, I, k, sv) && ItemLocal(b, n, I, k) < Rounds(m, I, k, sv) * MakePlan(m, I, k).chunk
  {
    if Spread(m, I, k) {
      SpreadWrittenIff(b, m, I, k);
    } else {
      UnspreadWrittenIff(b, m, n, I, k);
    }
  }

  lemma SpreadWrittenIff(b: nat, m: nat, I: nat, k: nat)
    requires Spread(m, I, k)
    ensures var sv := Server(b, I, k);
      Overwritten(b, m, I, k) <==> HasBlock(m, I, k, sv) && Local(b, I, k) < Rounds(m, I, k, sv) * I
  {
    var q := b / I;
    var row, sv := q / k, q % k;
    BelowMultiple(row, b % I, Rounds(m, I, k, sv), I);
    BlockWrittenIff(q, m, I, k);
  }

  lemma BlockWrittenIff(q: nat, m: nat, I: nat, k: nat)
    requires Spread(m, I, k)
    ensures q < Blocks(m, I) || (Blocks(m, I) < k && k <= q < k + Blocks(m, I)) <==>
            HasBlock(m, I, k, q % k) && q / k < Rounds(m, I, k, q % k)
  {
    var blocks := Blocks(m, I);
    DivSplit(q, k);
    if blocks >= k {
      RoundsAreShare(m, I, k, q % k);
      ShareExact(blocks, k, q % k, q / k);
    } else {
      SmallRemainder(blocks, k);
      FirstTwoRows(q, k);
    }
  }

  lemma FirstTwoRows(q: nat, k: nat)
    requires k > 0
    ensures q / k == 0 <==> q < k
    ensures q / k == 1 <==> k <= q < 2 * k
  {
    DivSplit(q, k);
    if q < k {
      DivModOf(0, q, k);
    } else if q < 2 * k {
      DivModOf(1, q - k, k);
    }
  }

  lemma UnspreadWrittenIff(b: nat, m: nat, n: nat, I: nat, k: nat)
    requires b < n && m <= n && k > 0 && !Spread(m, I, k)
    ensures b < m <==> ItemServer(b, n, I, k) == 0 && ItemLocal(b, n, I, k) < m
  {
    if b < m {
      UnspreadPlace(b, m, n, I, k);
    } else if Interleaved(n, I) && Server(b, I, k) == 0 && Local(b, I, k) < m {
      UnspreadPlace(Local(b, I, k), m, n, I, k);
      ItemPlacesDistinct(b, Local(b, I, k), n, I, k);
    }
  }

  /** A restore overwrites no block of the destination beyond those of the backup if and only if the backup is
      not spread or has a block per server, or the destination has no second row. */
  lemma OnlyItsBlocksIff(m: nat, n: nat, I: nat, k: nat)
    requires 0 < m <= n && k > 0
    ensures (forall b: nat :: b < n && Overwritten(b, m, I, k) ==> InBackup(b, m, I, k))
       <==> (!Spread(m, I, k) || Blocks(m, I) >= k || n <= k * I)
  {
    if Spread(m, I, k) && Blocks(m, I) < k {
      if n <= k * I {
        forall b: nat | b < n ensures b / I < k { BelowMultiple(b / I, b % I, k, I); }
      } else {
        DivModOf(k, 0, I);
        BlocksPositive(m, I);
        assert Overwritten(k * I, m, I, k) && !InBackup(k * I, m, I, k);
      }
    }
  }

  /** Every byte of the destination that is not overwritten keeps its value. */
  lemma OtherBytesKept(was: seq<seq<Byte>>, now: seq<seq<Byte>>, offsets: seq<nat>, m: nat, n: nat, I: nat, b: nat)
    requires OthersKept(now, was, offsets, m, I) && b < n && m <= n && !Overwritten(b, m, I, |now|)
    requires var sv := ItemServer(b, n, I, |now|);
      sv < |now| && offsets[sv] + ItemLocal(b, n, I, |now|) < |now[sv]|
    ensures var sv := ItemServer(b, n, I, |now|); |now[sv]| == |was[sv]|
    ensures DestByte(now, offsets, n, I, b) == DestByte(was, offsets, n, I, b)
  {
    OverwrittenIff(b, m, n, I, |now|);
  }

  /** No byte is overwritten on a server where no byte of the backup lives. */
  lemma NoneOverwritten(b: nat, m: nat, n: nat, I: nat, k: nat)
    requires b < n && m <= n && k > 0
    requires forall b': nat :: b' < m ==> ItemServer(b', n, I, k) != ItemServer(b, n, I, k)
    ensures !Overwritten(b, m, I, k)
  {
    ItemFits(b, n, I, k);
    OverwrittenIff(b, m, n, I, k);
    if m > 0 { HasBlockIff(m, n, I, k, ItemServer(b, n, I, k)); }
  }

  /** Exactly when a restore from the backup of an item of the same size and block size runs into the
      end of the file, for any two server counts. */
  lemma SameBlockSizeShortIff(file: seq<Byte>, n: nat, I: nat, k: nat, k': nat)
    requires k > 0 && k' > 0 && |file| == FileBlocks(n, I, k) * MakePlan(n, I, k).chunk
    ensures NoShortRead(file, n, I, k') <==>
      (|| !Spread(n, I, k')
       || (k > 1 && (Blocks(n, I) >= k' || (Blocks(n, I) < k && k' <= k)))
       || (k == 1 && Blocks(n, I) >= k' && n % I == 0))
  {
    NoShortReadIff(file, n, I, k');
    if !Spread(n, I, k') {
      UnspreadFileReaches(n, I, k);
    } else if k > 1 {
      TimesOrder(NeededBlocks(n, I, k'), FileBlocks(n, I, k), I);
    } else {
      assert |file| == n;
      WholeBlocks(n, I);
      TimesOrder(Blocks(n, I) + 1, NeededBlocks(n, I, k'), I);
      BlocksCover(n, I);
    }
  }

  lemma TimesOrder(a: nat, b: nat, I: nat)
    requires I > 0
    ensures a * I <= b * I <==> a <= b
  {
    if a <= b {
      MulMono(a, b, I);
    } else {
      MulMono(b + 1, a, I);
      NextTimes(b, I);
    }
  }

  lemma WholeBlocks(n: nat, I: nat)
    requires I > 0
    ensures Blocks(n, I) * I <= n <==> n % I == 0
  {
    var q := n / I;
    NextTimes(q, I);
    assert n == q * I + n % I;
  }

  /** The file of any backup of n bytes has at least n bytes. */
  lemma UnspreadFileReaches(n: nat, I: nat, k: nat)
    requires k > 0
    ensures FileBlocks(n, I, k) * MakePlan(n, I, k).chunk >= n
  {
    if Spread(n, I, k) {
      BlocksCover(n, I);
      MulMono(Blocks(n, I), FileBlocks(n, I, k), I);
    } else {
      MulMono(1, k, n);
    }
  }

  /** A restore into a spread item from an item that was not spread runs short exactly when the backup,
      one copy per source server, ends before the last block the restore reads. */
  lemma UnspreadSourceShortIff(file: seq<Byte>, n: nat, I: nat, k: nat, I': nat, k': nat)
    requires k > 0 && !Spread(n, I, k) && Spread(n, I', k')
    requires |file| == FileBlocks(n, I, k) * MakePlan(n, I, k).chunk
    ensures NoShortRead(file, n, I', k') <==>
      (if Blocks(n, I') >= k' then Blocks(n, I') else Blocks(n, I') + k') * I' <= k * n
  {
    NoShortReadIff(file, n, I', k');
  }

  /** 150 bytes backed up from one server do not fill the two blocks of 128 a restore over two servers reads. */
  lemma UnspreadSourceRunsShort(file: seq<Byte>)
    requires |file| == 150
    ensures ServerCount(150, true, 256, 2) == 1 && ServerCount(150, true, 128, 2) == 2
    ensures !NoShortRead(file, 150, 128, 2)
  {
    NoShortReadIff(file, 150, 128, 2);
  }

  /** Restore writes stay inside the bytes allocated to the destination if and only if the backup
      has a block per server, is not spread, or the last server used twice has room for two blocks. */
  lemma RestoreWritesInBoundsIff(m: nat, n: nat, I: nat, k: nat)
    requires k > 0 && m <= n
    ensures (forall i :: 0 <= i < k && HasBlock(m, I, k, i) ==>
               JobSize(MakePlan(m, I, k), I, i) <= ServerSize(n, I, k, i))
       <==> (!Spread(m, I, k) || Blocks(m, I) >= k || 2 * I <= ServerSize(n, I, k, Blocks(m, I) - 1))
  {
    var p := MakePlan(m, I, k);
    if !Spread(m, I, k) {
      assert HasBlock(m, I, k, 0);
      UnspreadFits(m, n, I, k);
    } else if Blocks(m, I) >= k {
      forall i | 0 <= i < k ensures JobSize(p, I, i) <= ServerSize(n, I, k, i) { SpreadFits(m, n, I, k, i); }
    } else {
      var blocks := Blocks(m, I);
      BlockBelow(0, m, I);
      assert HasBlock(m, I, k, blocks - 1);
      forall i | 0 <= i < blocks
        ensures JobSize(p, I, i) == 2 * I && ServerSize(n, I, k, blocks - 1) <= ServerSize(n, I, k, i)
      {
        FewBlocksJobSize(m, I, k, i);
        SizesDecrease(n, I, k, i, blocks - 1);
      }
    }
  }

  /** An item of 384 bytes in blocks of 128 gets 3 servers with 128 bytes each; restoring 200 bytes into it
      sends the first of them 256. */
  lemma ShortBackupWritesPastAllocation()
    ensures ServerCount(384, true, 128, 3) == 3 && ServerSize(384, 128, 3, 0) == 128
    ensures JobSize(MakePlan(200, 128, 3), 128, 0) == 256
  {
  }

  lemma FewBlocksJobSize(m: nat, I: nat, k: nat, i: nat)
    requires Spread(m, I, k) && i < Blocks(m, I) < k
    ensures JobSize(MakePlan(m, I, k), I, i) == 2 * I
  {
    SmallRemainder(Blocks(m, I), k);
  }

  lemma SpreadFits(m: nat, n: nat, I: nat, k: nat, i: nat)
    requires Spread(m, I, k) && Blocks(m, I) >= k && m <= n && i < k
    ensures JobSize(MakePlan(m, I, k), I, i) <= ServerSize(n, I, k, i)
  {
    JobSizeIsRounds(m, I, k, i);
    RoundsAreShare(m, I, k, i);
    BlocksMono(m, n, I);
    ShareMono(Blocks(m, I), Blocks(n, I), k, i);
    MulMono(Share(Blocks(m, I), k, i), Share(Blocks(n, I), k, i), I);
  }

  lemma UnspreadFits(m: nat, n: nat, I: nat, k: nat)
    requires k > 0 && !Spread(m, I, k) && m <= n
    ensures JobSize(MakePlan(m, I, k), I, 0) <= ServerSize(n, I, k, 0)
  {
    if Interleaved(n, I) && m > 0 {
      DestInJob(m - 1, m, n, I, k);
      ItemFits(m - 1, n, I, k);
      var sv, l := ItemServer(m - 1, n, I, k), ItemLocal(m - 1, n, I, k);
      assert sv == 0;
      DivModOf(0, l, m);
    }
  }

  lemma SizesDecrease(n: nat, I: nat, k: nat, i: nat, j: nat)
    requires k > 0 && i <= j
    ensures ServerSize(n, I, k, j) <= ServerSize(n, I, k, i)
  {
    if Interleaved(n, I) {
      var a, c := Share(Blocks(n, I), k, j), Share(Blocks(n, I), k, i);
      if a != c {
        assert c == a + 1;
        NextTimes(a, I);
      }
      RoundedMono(RawSize(n, I, k, j), RawSize(n, I, k, i));
    }
  }
}
