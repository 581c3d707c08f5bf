/**
 Backup of a data item into one file by one job per memory server.
 */
module Backup {
  import opened Layout
  import opened Allocation
  import opened ServerChoice

  // -------------------------------------------------------------------------
  // Planning: the same computation in backup and in restore

  /** Each server handles sizePerServer bytes, the first `extra` ones a block more, by chunks. */
  datatype Plan = Plan(blocks: nat, sizePerServer: nat, chunk: nat, extra: nat)

  predicate Spread(size: nat, I: nat, k: nat) { I != 0 && size > I && k > 1 }

  function MakePlan(size: nat, I: nat, k: nat): Plan
    requires k > 0
  {
    if Spread(size, I, k) then
      var blocks := Blocks(size, I);
      var numBlocksPerServer := if blocks > k then blocks / k else 1;
      Plan(blocks, numBlocksPerServer * I, I, blocks % k)
    else
      Plan(1, size, size, 0)
  }

  /** Chunks job i processes. */
  function Rounds(size: nat, I: nat, k: nat, i: nat): nat
    requires k > 0
  {
    if Spread(size, I, k) then
      (if Blocks(size, I) > k then Blocks(size, I) / k else 1) + (if i < Blocks(size, I) % k then 1 else 0)
    else if size == 0 then 0 else 1
  }

  /** The bytes job i is asked for. */
  function JobSize(p: Plan, I: nat, i: nat): nat { p.sizePerServer + if i < p.extra then I else 0 }

  lemma JobSizeIsRounds(size: nat, I: nat, k: nat, i: nat)
    requires k > 0
    ensures JobSize(MakePlan(size, I, k), I, i) == Rounds(size, I, k, i) * MakePlan(size, I, k).chunk
  {
  }

  /** With at least as many blocks as servers, a job processes exactly the blocks dealt to its server. */
  lemma RoundsAreShare(size: nat, I: nat, k: nat, i: nat)
    requires Spread(size, I, k) && Blocks(size, I) >= k
    ensures Rounds(size, I, k, i) == Share(Blocks(size, I), k, i)
  {
    var blocks := Blocks(size, I);
    if blocks == k { DivModOf(1, 0, k); }
  }

  lemma RoundsCoverShare(size: nat, I: nat, k: nat, i: nat)
    requires Spread(size, I, k) && i < k
    ensures Share(Blocks(size, I), k, i) <= Rounds(size, I, k, i)
  {
    if Blocks(size, I) >= k {
      RoundsAreShare(size, I, k, i);
    } else {
      DivModOf(0, Blocks(size, I), k);
    }
  }

  // -------------------------------------------------------------------------
  // The file

  /** fseek to pos and fwrite: a gap before pos reads as zeros. */
  function PutAt(data: seq<Byte>, pos: nat, bytes: seq<Byte>): (r: seq<Byte>)
    ensures |bytes| > 0 ==> |r| == if |data| < pos + |bytes| then pos + |bytes| else |data|
    ensures |bytes| > 0 ==> forall p :: 0 <= p < |r| ==>
      r[p] == if pos <= p < pos + |bytes| then bytes[p - pos] else if p < |data| then data[p] else 0
    ensures |bytes| == 0 ==> r == data
  {
    if |bytes| == 0 then data
    else
      seq(if |data| < pos + |bytes| then pos + |bytes| else |data|,
          p => if pos <= p < pos + |bytes| then bytes[p - pos] else if 0 <= p < |data| then data[p] else 0)
  }

  class BackupFile {
    var data: seq<Byte>

    constructor ()
      ensures data == []
    {
      data := [];
    }

    method Put(pos: nat, bytes: seq<Byte>)
      modifies this
      ensures data == PutAt(old(data), pos, bytes)
    {
      data := PutAt(data, pos, bytes);
    }
  }

  /** Chunk r of a job: from its server's memory, to its slot in the file. */
  function WriteChunk(data: seq<Byte>, mem: seq<Byte>, r: nat, chunk: nat, used: nat, start: nat): seq<Byte>
    requires (r + 1) * chunk <= |mem|
  {
    NextTimes(r, chunk);
    PutAt(data, Slot(r, used, start, chunk), mem[r * chunk..(r + 1) * chunk])
  }

  /** The file after r chunks of one job. */
  function AfterRounds(data: seq<Byte>, mem: seq<Byte>, r: nat, chunk: nat, used: nat, start: nat): seq<Byte>
    requires r * chunk <= |mem|
  {
    if r == 0 then data
    else
      NextTimes(r - 1, chunk);
      WriteChunk(AfterRounds(data, mem, r - 1, chunk, used, start), mem, r - 1, chunk, used, start)
  }

  /** Whole chunks a job of `size` bytes goes through. */
  function ChunksOf(size: nat, chunk: nat): nat { if chunk == 0 then 0 else Blocks(size, chunk) }

  lemma ChunksOfMultiple(rounds: nat, chunk: nat)
    requires chunk == 0 ==> rounds == 0
    ensures ChunksOf(rounds * chunk, chunk) == rounds
  {
    if chunk > 0 { DivModOf(rounds, 0, chunk); }
  }

  lemma MoreChunks(r: nat, size: nat, chunk: nat)
    requires chunk > 0 || size == 0
    ensures r * chunk < size <==> r < ChunksOf(size, chunk)
    ensures r < ChunksOf(size, chunk) ==> (r + 1) * chunk <= ChunksOf(size, chunk) * chunk
  {
    if chunk > 0 {
      BlocksCover(size, chunk);
      var m := Blocks(size, chunk);
      NextTimes(r, chunk);
      if r < m {
        MulMono(r + 1, m, chunk);
      } else {
        MulMono(m, r, chunk);
      }
    }
  }

  /** File position of chunk r of a job. */
  function Slot(r: nat, used: nat, start: nat, chunk: nat): nat { (r * used + start) * chunk }

  lemma NextSlot(r: nat, used: nat, start: nat, chunk: nat)
    ensures Slot(r + 1, used, start, chunk) == Slot(r, used, start, chunk) + used * chunk
  {
    assert (r + 1) * used + start == (r * used + start) + used;
    assert ((r * used + start) + used) * chunk == (r * used + start) * chunk + used * chunk;
  }

  /** Memserver_Allocator::backup: from the server's memory at the item, chunk by chunk. */
  method BackupJob(mem: seq<Byte>, size: nat, chunk: nat, used: nat, start: nat, file: BackupFile)
    requires (chunk > 0 || size == 0) && ChunksOf(size, chunk) * chunk <= |mem|
    modifies file
    ensures file.data == AfterRounds(old(file.data), mem, ChunksOf(size, chunk), chunk, used, start)
  {
    var filePos, famPtr := start * chunk, 0;
    ghost var r, n := 0, ChunksOf(size, chunk);
    while famPtr < size
      invariant r <= n && famPtr == r * chunk && filePos == Slot(r, used, start, chunk)
      invariant r * chunk <= |mem| && file.data == AfterRounds(old(file.data), mem, r, chunk, used, start)
      decreases n - r
    {
      assert r < n && famPtr + chunk == (r + 1) * chunk <= n * chunk by {
        MoreChunks(r, size, chunk);
        NextTimes(r, chunk);
      }
      file.Put(filePos, mem[famPtr..famPtr + chunk]);
      assert Slot(r + 1, used, start, chunk) == filePos + used * chunk by { NextSlot(r, used, start, chunk); }
      famPtr := famPtr + chunk;
      filePos := filePos + used * chunk;
      r := r + 1;
    }
    assert r == n by { MoreChunks(r, size, chunk); }
  }

  // -------------------------------------------------------------------------
  // Jobs in any interleaving

  /** Job i has written its first done[i] chunks; byte l of server i stands at its logical place. */
  ghost predicate Progress(data: seq<Byte>, mems: seq<seq<Byte>>, done: seq<nat>, chunk: nat)
    requires chunk > 0
  {
    && |done| == |mems|
    && (forall i :: 0 <= i < |mems| ==> done[i] * chunk <= |mems[i]|)
    && (forall i, l :: 0 <= i < |mems| && 0 <= l < done[i] * chunk ==> Written(data, mems, i, l, chunk))
  }

  predicate Written(data: seq<Byte>, mems: seq<seq<Byte>>, i: nat, l: nat, chunk: nat)
    requires chunk > 0 && i < |mems| && l < |mems[i]|
  {
    var p := Logical(i, l, chunk, |mems|);
    p < |data| && data[p] == mems[i][l]
  }

  /** A chunk write changes the bytes of its own file block only. */
  /** Offset o of block b is offset o of block q, or outside block q. */
  lemma BlockOrder(b: nat, o: nat, q: nat, chunk: nat)
    requires o < chunk
    ensures if b == q then b * chunk + o == q * chunk + o
            else b * chunk + o < q * chunk || b * chunk + o >= q * chunk + chunk
  {
    if b < q {
      MulMono(b + 1, q, chunk);
      NextTimes(b, chunk);
    } else if b > q {
      MulMono(q + 1, b, chunk);
      NextTimes(q, chunk);
    }
  }

  /** A chunk of memory written at pos, seen at its offset o, or at another position p of the file. */
  lemma PutChunk(data: seq<Byte>, mem: seq<Byte>, at: nat, pos: nat, chunk: nat, p: nat, o: nat)
    requires o < chunk && at + chunk <= |mem| && (p == pos + o || p < pos || p >= pos + chunk)
    ensures var d := PutAt(data, pos, mem[at..at + chunk]);
      && |data| <= |d|
      && (p == pos + o ==> p < |d| && d[p] == mem[at + o])
      && (p != pos + o && p < |data| ==> d[p] == data[p])
  {
    var bytes := mem[at..at + chunk];
    assert |bytes| == chunk && bytes[o] == mem[at + o];
    PutByte(data, pos, bytes, p, o);
  }

  lemma PutByte(data: seq<Byte>, pos: nat, bytes: seq<Byte>, p: nat, o: nat)
    requires o < |bytes| && (p == pos + o || p < pos || p >= pos + |bytes|)
    ensures var d := PutAt(data, pos, bytes);
      && |data| <= |d|
      && (p == pos + o ==> p < |d| && d[p] == bytes[o])
      && (p != pos + o && p < |data| ==> d[p] == data[p])
  {
  }

  lemma WriteChunkAt(data: seq<Byte>, mem: seq<Byte>, r: nat, chunk: nat, used: nat, start: nat, p: nat, o: nat)
    requires o < chunk && (r + 1) * chunk <= |mem|
    requires var pos := Slot(r, used, start, chunk); p == pos + o || p < pos || p >= pos + chunk
    ensures var d, pos := WriteChunk(data, mem, r, chunk, used, start), Slot(r, used, start, chunk);
      && |data| <= |d|
      && (p == pos + o ==> p < |d| && r * chunk + o < |mem| && d[p] == mem[r * chunk + o])
      && (p != pos + o && p < |data| ==> d[p] == data[p])
  {
    NextTimes(r, chunk);
    PutChunk(data, mem, r * chunk, Slot(r, used, start, chunk), chunk, p, o);
  }

  /** File writes of different jobs, and of different chunks, are disjoint. */
  lemma WritesDisjoint(i: nat, l: nat, j: nat, r: nat, chunk: nat, used: nat)
    requires chunk > 0 && i < used && j < used
    ensures Logical(i, l, chunk, used) / chunk == r * used + j <==> i == j && l / chunk == r
  {
    LogicalBlock(i, l, chunk, used);
    if l / chunk * used + i == r * used + j { QuotientUnique(l / chunk, i, r, j, used); }
  }

  lemma ChunkStep(data: seq<Byte>, mems: seq<seq<Byte>>, done: seq<nat>, chunk: nat, j: nat)
    requires chunk > 0 && Progress(data, mems, done, chunk)
    requires j < |mems| && (done[j] + 1) * chunk <= |mems[j]|
    ensures Progress(WriteChunk(data, mems[j], done[j], chunk, |mems|, j), mems, done[j := done[j] + 1], chunk)
  {
    var d := WriteChunk(data, mems[j], done[j], chunk, |mems|, j);
    var done' := done[j := done[j] + 1];
    forall i, l | 0 <= i < |mems| && 0 <= l < done'[i] * chunk ensures Written(d, mems, i, l, chunk) {
      ByChunk(l, chunk, done[i]);
      if i == j { ByChunk(l, chunk, done[i] + 1); }
      assert l < done[i] * chunk ==> Written(data, mems, i, l, chunk);
      PlaceAfterChunk(data, mems, i, l, j, done[j], chunk);
    }
  }

  /** What one more chunk of job j does to place l of server i. */
  lemma PlaceAfterChunk(data: seq<Byte>, mems: seq<seq<Byte>>, i: nat, l: nat, j: nat, r: nat, chunk: nat)
    requires chunk > 0 && i < |mems| && j < |mems| && l < |mems[i]| && (r + 1) * chunk <= |mems[j]|
    requires (i == j && l / chunk == r) || Written(data, mems, i, l, chunk)
    ensures Written(WriteChunk(data, mems[j], r, chunk, |mems|, j), mems, i, l, chunk)
  {
    DivSplit(l, chunk);
    PlaceInSlot(i, l, j, r, chunk, |mems|);
    WriteChunkAt(data, mems[j], r, chunk, |mems|, j, Logical(i, l, chunk, |mems|), l % chunk);
  }

  /** A place is written by chunk r of job j at its own offset, or lies outside what that chunk writes. */
  lemma PlaceInSlot(i: nat, l: nat, j: nat, r: nat, chunk: nat, used: nat)
    requires chunk > 0 && i < used && j < used
    ensures var p, pos := Logical(i, l, chunk, used), Slot(r, used, j, chunk);
      if i == j && l / chunk == r then p == pos + l % chunk else p < pos || p >= pos + chunk
  {
    var q := l / chunk;
    if q * used + i == r * used + j { QuotientUnique(q, i, r, j, used); }
    BlockOrder(q * used + i, l % chunk, r * used + j, chunk);
  }

  lemma ByChunk(l: nat, chunk: nat, n: nat)
    requires chunk > 0
    ensures l < n * chunk <==> l / chunk < n
    ensures l == l / chunk * chunk + l % chunk
  {
    BelowMultiple(l / chunk, l % chunk, n, chunk);
  }

  /** Logical byte b of an item of n bytes spread over the servers' memories. */
  function ItemByte(mems: seq<seq<Byte>>, n: nat, I: nat, b: nat): Byte
    requires |mems| > 0
    requires ItemServer(b, n, I, |mems|) < |mems| && ItemLocal(b, n, I, |mems|) < |mems[ItemServer(b, n, I, |mems|)]|
  {
    mems[ItemServer(b, n, I, |mems|)][ItemLocal(b, n, I, |mems|)]
  }

  lemma OneServer(b: nat, I: nat)
    requires I > 0
    ensures Server(b, I, 1) == 0 && Local(b, I, 1) == b
  {
    assert b == b / I * I + b % I;
  }

  /** The place of logical byte b is processed by its server's job, and goes to file byte b. */
  lemma ItemInJob(b: nat, n: nat, I: nat, k: nat)
    requires b < n && k > 0
    ensures MakePlan(n, I, k).chunk > 0
    ensures var sv, l, c := ItemServer(b, n, I, k), ItemLocal(b, n, I, k), MakePlan(n, I, k).chunk;
      sv < k && l < Rounds(n, I, k, sv) * c && Logical(sv, l, c, k) == b
  {
    if Spread(n, I, k) {
      LayoutRoundTrip(b, I, k);
      ItemFits(b, n, I, k);
      RoundsCoverShare(n, I, k, Server(b, I, k));
      MulMono(Share(Blocks(n, I), k, Server(b, I, k)), Rounds(n, I, k, Server(b, I, k)), I);
    } else {
      if Interleaved(n, I) { OneServer(b, I); }
      DivModOf(0, b, n);
    }
  }

  /** The servers' heaps reach as far as the jobs read. */
  predicate JobsReadHeap(mems: seq<seq<Byte>>, n: nat, I: nat) {
    |mems| > 0 && forall i :: 0 <= i < |mems| ==>
      Rounds(n, I, |mems|, i) * MakePlan(n, I, |mems|).chunk <= |mems[i]|
  }

  /** The file starts with the item, byte for byte. */
  ghost predicate Linearised(data: seq<Byte>, mems: seq<seq<Byte>>, n: nat, I: nat)
    requires JobsReadHeap(mems, n, I)
  {
    n <= |data| && forall b :: 0 <= b < n ==> LinearAt(data, mems, n, I, b)
  }

  predicate LinearAt(data: seq<Byte>, mems: seq<seq<Byte>>, n: nat, I: nat, b: nat)
    requires JobsReadHeap(mems, n, I) && b < n <= |data|
  {
    ItemInJob(b, n, I, |mems|);
    data[b] == ItemByte(mems, n, I, b)
  }

  lemma ProgressLinearises(data: seq<Byte>, mems: seq<seq<Byte>>, n: nat, I: nat, done: seq<nat>)
    requires JobsReadHeap(mems, n, I) && n > 0
    requires |done| == |mems| && forall i :: 0 <= i < |mems| ==> done[i] == Rounds(n, I, |mems|, i)
    requires MakePlan(n, I, |mems|).chunk > 0 && Progress(data, mems, done, MakePlan(n, I, |mems|).chunk)
    ensures Linearised(data, mems, n, I)
  {
    ProgressReaches(data, mems, n, I, done, n - 1);
    forall b | 0 <= b < n ensures LinearAt(data, mems, n, I, b) { ProgressReaches(data, mems, n, I, done, b); }
  }

  lemma ProgressReaches(data: seq<Byte>, mems: seq<seq<Byte>>, n: nat, I: nat, done: seq<nat>, b: nat)
    requires JobsReadHeap(mems, n, I) && b < n
    requires |done| == |mems| && forall i :: 0 <= i < |mems| ==> done[i] == Rounds(n, I, |mems|, i)
    requires MakePlan(n, I, |mems|).chunk > 0 && Progress(data, mems, done, MakePlan(n, I, |mems|).chunk)
    ensures b < |data| && (n <= |data| ==> LinearAt(data, mems, n, I, b))
  {
    ItemInJob(b, n, I, |mems|);
    assert Written(data, mems, ItemServer(b, n, I, |mems|), ItemLocal(b, n, I, |mems|), MakePlan(n, I, |mems|).chunk);
  }

  datatype Jobs = Jobs(data: seq<Byte>, done: seq<nat>)

  /** Job j has chunks left and writes its next one. */
  predicate JobSteps(s: Jobs, s': Jobs, mems: seq<seq<Byte>>, n: nat, I: nat, j: nat)
    requires JobsReadHeap(mems, n, I)
  {
    var chunk := MakePlan(n, I, |mems|).chunk;
    && |s.done| == |mems| && j < |mems|
    && s.done[j] < Rounds(n, I, |mems|, j) && (s.done[j] + 1) * chunk <= |mems[j]|
    && s' == Jobs(WriteChunk(s.data, mems[j], s.done[j], chunk, |mems|, j), s.done[j := s.done[j] + 1])
  }

  ghost predicate JobsNext(s: Jobs, s': Jobs, mems: seq<seq<Byte>>, n: nat, I: nat)
    requires JobsReadHeap(mems, n, I)
  {
    exists j :: JobSteps(s, s', mems, n, I, j)
  }

  /** Any interleaving of the jobs, over whatever the file held before. */
  ghost predicate IsBackupRun(run: seq<Jobs>, mems: seq<seq<Byte>>, n: nat, I: nat)
    requires JobsReadHeap(mems, n, I)
  {
    && |run| > 0 && run[0].done == seq(|mems|, _ => 0)
    && forall t :: 0 <= t < |run| - 1 ==> JobsNext(run[t], run[t + 1], mems, n, I)
  }

  lemma NextKeepsProgress(s: Jobs, s': Jobs, mems: seq<seq<Byte>>, n: nat, I: nat, chunk: nat)
    requires JobsReadHeap(mems, n, I) && JobsNext(s, s', mems, n, I)
    requires chunk == MakePlan(n, I, |mems|).chunk > 0 && Progress(s.data, mems, s.done, chunk)
    ensures Progress(s'.data, mems, s'.done, chunk)
  {
    var j :| JobSteps(s, s', mems, n, I, j);
    ChunkStep(s.data, mems, s.done, chunk, j);
  }

  lemma ChunkPositive(mems: seq<seq<Byte>>, n: nat, I: nat)
    requires JobsReadHeap(mems, n, I) && n > 0
    ensures MakePlan(n, I, |mems|).chunk > 0
  {
    ItemInJob(0, n, I, |mems|);
  }

  lemma {:induction false} BackupRunProgress(run: seq<Jobs>, mems: seq<seq<Byte>>, n: nat, I: nat, t: nat)
    requires JobsReadHeap(mems, n, I) && n > 0 && IsBackupRun(run, mems, n, I) && t < |run|
    ensures MakePlan(n, I, |mems|).chunk > 0
    ensures Progress(run[t].data, mems, run[t].done, MakePlan(n, I, |mems|).chunk)
  {
    ChunkPositive(mems, n, I);
    if t > 0 {
      BackupRunProgress(run, mems, n, I, t - 1);
      assert JobsNext(run[t - 1], run[t - 1 + 1], mems, n, I);
      NextKeepsProgress(run[t - 1], run[t], mems, n, I, MakePlan(n, I, |mems|).chunk);
    }
  }

  /** However the jobs interleave, once all are done the file starts with the item. */
  lemma BackupLinearises(run: seq<Jobs>, mems: seq<seq<Byte>>, n: nat, I: nat)
    requires JobsReadHeap(mems, n, I) && IsBackupRun(run, mems, n, I)
    requires var last := run[|run| - 1];
      |last.done| == |mems| && forall i :: 0 <= i < |mems| ==> last.done[i] == Rounds(n, I, |mems|, i)
    ensures Linearised(run[|run| - 1].data, mems, n, I)
  {
    if n > 0 {
      BackupRunProgress(run, mems, n, I, |run| - 1);
      ProgressLinearises(run[|run| - 1].data, mems, n, I, run[|run| - 1].done);
    }
  }

  lemma {:induction false} JobProgress(data: seq<Byte>, mems: seq<seq<Byte>>, done: seq<nat>, chunk: nat, j: nat,
                                       r: nat)
    requires chunk > 0 && Progress(data, mems, done, chunk)
    requires j < |mems| && done[j] == 0 && r * chunk <= |mems[j]|
    ensures Progress(AfterRounds(data, mems[j], r, chunk, |mems|, j), mems, done[j := r], chunk)
  {
    if r == 0 {
      assert done[j := 0] == done;
    } else {
      NextTimes(r - 1, chunk);
      JobProgress(data, mems, done, chunk, j, r - 1);
      var d := AfterRounds(data, mems[j], r - 1, chunk, |mems|, j);
      ChunkStep(d, mems, done[j := r - 1], chunk, j);
      assert done[j := r - 1][j := r] == done[j := r];
    }
  }

  /** Fam_CIS_Direct::backup, with the jobs one after the other. */
  method Backup(mems: seq<seq<Byte>>, size: nat, I: nat, file: BackupFile)
    requires JobsReadHeap(mems, size, I)
    modifies file
    ensures Linearised(file.data, mems, size, I)
  {
    var k := |mems|;
    var plan := MakePlan(size, I, k);
    var extraBlocks := plan.extra;
    ghost var done := seq(k, _ => 0);
    if size > 0 { ItemInJob(0, size, I, k); }
    for i := 0 to k
      invariant extraBlocks == if i < plan.extra then plan.extra - i else 0
      invariant |done| == k && forall n :: 0 <= n < k ==> done[n] == if n < i then Rounds(size, I, k, n) else 0
      invariant size > 0 ==> Progress(file.data, mems, done, plan.chunk)
    {
      var jobSize := plan.sizePerServer;
      if extraBlocks != 0 {
        jobSize := jobSize + I;
        extraBlocks := extraBlocks - 1;
      }
      JobSizeIsRounds(size, I, k, i);
      ChunksOfMultiple(Rounds(size, I, k, i), plan.chunk);
      ghost var before := file.data;
      BackupJob(mems[i], jobSize, plan.chunk, k, i, file);
      if size > 0 { JobProgress(before, mems, done, plan.chunk, i, Rounds(size, I, k, i)); }
      done := done[i := Rounds(size, I, k, i)];
    }
    if size > 0 { ProgressLinearises(file.data, mems, size, I, done); }
  }

  // -------------------------------------------------------------------------
  // Bounds and length

  /** Backup reads stay inside what was allocated for the item if and only if the item is not
      spread, has at least one block per server, or has blocks of at most 64 bytes. */
  lemma BackupReadsInBoundsIff(n: nat, I: nat, k: nat)
    requires k > 0
    ensures (forall i :: 0 <= i < k ==> JobSize(MakePlan(n, I, k), I, i) <= ServerSize(n, I, k, i))
       <==> !Spread(n, I, k) || Blocks(n, I) >= k || I <= 64
  {
    var p := MakePlan(n, I, k);
    if Spread(n, I, k) {
      forall i | 0 <= i < k ensures JobSize(p, I, i) == Rounds(n, I, k, i) * I { JobSizeIsRounds(n, I, k, i); }
      if Blocks(n, I) >= k {
        forall i | 0 <= i < k ensures JobSize(p, I, i) <= ServerSize(n, I, k, i) { RoundsAreShare(n, I, k, i); }
      } else {
        DivModOf(0, Blocks(n, I), k);
        BlocksCover(n, I);
        assert Blocks(n, I) > 0;
        assert Share(Blocks(n, I), k, 0) == 1;
        assert JobSize(p, I, 0) == 2 * I;
        assert ServerSize(n, I, k, 0) == (if Rounded(I) < 128 then 128 else Rounded(I));
      }
    } else {
      forall i | 0 <= i < k ensures JobSize(p, I, i) <= ServerSize(n, I, k, i) {
        if Interleaved(n, I) {
          assert k == 1;
          BlocksCover(n, I);
          DivModOf(Blocks(n, I), 0, 1);
        }
      }
    }
  }

  /** The backup of an item on the servers chosen for it reads inside what was allocated there. */
  lemma BackupReadsInBounds(n: nat, enabled: bool, I: nat, used: nat, i: nat)
    requires used > 0 && BlockSize(enabled, I) && i < ServerCount(n, enabled, I, used)
    ensures var k := ServerCount(n, enabled, I, used); JobSize(MakePlan(n, I, k), I, i) <= ServerSize(n, I, k, i)
  {
    BlocksForServers(n, enabled, I, used);
    BackupReadsInBoundsIff(n, I, ServerCount(n, enabled, I, used));
  }

  /** So heaps that reach to the end of the allocation reach as far as the jobs read. */
  lemma AllocatedItemIsReadable(mems: seq<seq<Byte>>, n: nat, enabled: bool, I: nat, used: nat)
    requires used > 0 && BlockSize(enabled, I) && |mems| == ServerCount(n, enabled, I, used)
    requires forall i :: 0 <= i < |mems| ==> ServerSize(n, I, |mems|, i) <= |mems[i]|
    ensures JobsReadHeap(mems, n, I)
  {
    var k := |mems|;
    forall i | 0 <= i < k ensures Rounds(n, I, k, i) * MakePlan(n, I, k).chunk <= |mems[i]| {
      BackupReadsInBounds(n, enabled, I, used, i);
      JobSizeIsRounds(n, I, k, i);
    }
  }

  /** File blocks a complete backup occupies. */
  function FileBlocks(n: nat, I: nat, k: nat): nat
    requires k > 0
  {
    if !Spread(n, I, k) then k else if Blocks(n, I) >= k then Blocks(n, I) else Blocks(n, I) + k
  }

  lemma SlotInFile(n: nat, I: nat, k: nat, i: nat, r: nat)
    requires i < k && r < Rounds(n, I, k, i)
    ensures r * k + i < FileBlocks(n, I, k)
  {
    if Spread(n, I, k) {
      if Blocks(n, I) >= k {
        RoundsAreShare(n, I, k, i);
        ShareExact(Blocks(n, I), k, i, r);
      } else {
        DivModOf(0, Blocks(n, I), k);
      }
    }
  }

  /** The last file block is some job's. */
  lemma LastSlot(n: nat, I: nat, k: nat) returns (i: nat, r: nat)
    requires k > 0 && n > 0
    ensures i < k && r < Rounds(n, I, k, i) && r * k + i == FileBlocks(n, I, k) - 1
  {
    if !Spread(n, I, k) {
      i, r := k - 1, 0;
    } else {
      var blocks := Blocks(n, I);
      BlocksCover(n, I);
      if blocks >= k {
        i, r := (blocks - 1) % k, (blocks - 1) / k;
        RoundsAreShare(n, I, k, i);
        ShareExact(blocks, k, i, r);
      } else {
        DivModOf(0, blocks, k);
        i, r := blocks - 1, 1;
      }
    }
  }

  lemma WriteWithin(data: seq<Byte>, mem: seq<Byte>, r: nat, chunk: nat, used: nat, start: nat, blocks: nat)
    requires (r + 1) * chunk <= |mem| && |data| <= blocks * chunk && r * used + start < blocks
    ensures |WriteChunk(data, mem, r, chunk, used, start)| <= blocks * chunk
  {
    var q := r * used + start;
    MulMono(q + 1, blocks, chunk);
    NextTimes(q, chunk);
    NextTimes(r, chunk);
  }

  lemma StepBounded(s: Jobs, s': Jobs, mems: seq<seq<Byte>>, n: nat, I: nat, j: nat)
    requires JobsReadHeap(mems, n, I) && JobSteps(s, s', mems, n, I, j)
    requires |s.data| <= FileBlocks(n, I, |mems|) * MakePlan(n, I, |mems|).chunk
    ensures |s'.data| <= FileBlocks(n, I, |mems|) * MakePlan(n, I, |mems|).chunk
  {
    SlotInFile(n, I, |mems|, j, s.done[j]);
    WriteWithin(s.data, mems[j], s.done[j], MakePlan(n, I, |mems|).chunk, |mems|, j, FileBlocks(n, I, |mems|));
  }

  lemma {:induction false} BackupRunBounded(run: seq<Jobs>, mems: seq<seq<Byte>>, n: nat, I: nat, t: nat)
    requires JobsReadHeap(mems, n, I) && IsBackupRun(run, mems, n, I) && t < |run|
    requires run[0].data == []
    ensures |run[t].data| <= FileBlocks(n, I, |mems|) * MakePlan(n, I, |mems|).chunk
  {
    if t > 0 {
      BackupRunBounded(run, mems, n, I, t - 1);
      assert JobsNext(run[t - 1], run[t - 1 + 1], mems, n, I);
      var j :| JobSteps(run[t - 1], run[t], mems, n, I, j);
      StepBounded(run[t - 1], run[t], mems, n, I, j);
    }
  }

  /** A complete backup into a new file is exactly that long. */
  lemma BackupLength(run: seq<Jobs>, mems: seq<seq<Byte>>, n: nat, I: nat)
    requires JobsReadHeap(mems, n, I) && IsBackupRun(run, mems, n, I) && run[0].data == []
    requires var last := run[|run| - 1];
      |last.done| == |mems| && forall i :: 0 <= i < |mems| ==> last.done[i] == Rounds(n, I, |mems|, i)
    ensures |run[|run| - 1].data| == FileBlocks(n, I, |mems|) * MakePlan(n, I, |mems|).chunk
  {
    var last := run[|run| - 1];
    BackupRunBounded(run, mems, n, I, |run| - 1);
    if n > 0 {
      BackupRunProgress(run, mems, n, I, |run| - 1);
      var chunk := MakePlan(n, I, |mems|).chunk;
      var i, r := LastSlot(n, I, |mems|);
      var l := r * chunk + (chunk - 1);
      MulMono(r + 1, last.done[i], chunk);
      NextTimes(r, chunk);
      NextTimes(r * |mems| + i, chunk);
      DivModOf(r, chunk - 1, chunk);
      assert Written(last.data, mems, i, l, chunk);
    }
  }
}
