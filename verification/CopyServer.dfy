/**
 The memory server's half of a copy: pull the source bytes that belong to this server's
 blocks of the destination, block by block, from the servers of the source.

 The source does not change during the copy; a remote read is complete when it is issued.
 `mems[i]` is the memory of the source's i-th server from the item's start on.  A read that
 leaves this memory, or a write that leaves the destination's heap, fails the request.
 */
module CopyServer {
  import opened Layout
  import opened Allocation
  import opened CopyDispatch

  datatype Source = Source(mems: seq<seq<Byte>>, I: nat)

  predicate Spread(s: Source) { |s.mems| > 1 }

  ghost predicate WellFormed(s: Source) { |s.mems| > 0 && (Spread(s) ==> s.I > 0) }

  /** Where logical byte p of the source lives. */
  function SrcServer(s: Source, p: nat): nat
    requires WellFormed(s)
  {
    if Spread(s) then Server(p, s.I, |s.mems|) else 0
  }

  function SrcLocal(s: Source, p: nat): nat
    requires WellFormed(s)
  {
    if Spread(s) then Local(p, s.I, |s.mems|) else p
  }

  predicate InMemory(s: Source, p: nat)
    requires WellFormed(s)
  {
    SrcServer(s, p) < |s.mems| && SrcLocal(s, p) < |s.mems[SrcServer(s, p)]|
  }

  function SrcByte(s: Source, p: nat): Byte
    requires WellFormed(s)
  {
    if InMemory(s, p) then s.mems[SrcServer(s, p)][SrcLocal(s, p)] else 0
  }

  ghost predicate Readable(s: Source, from: nat, len: nat)
    requires WellFormed(s)
  {
    forall p :: from <= p < from + len ==> InMemory(s, p)
  }

  /** Positions at..at+len hold the source from `from` on. */
  ghost predicate Filled(heap: seq<Byte>, at: nat, s: Source, from: nat, len: nat)
    requires WellFormed(s) && at + len <= |heap|
  {
    forall y :: at <= y < at + len ==> heap[y] == SrcByte(s, from + (y - at))
  }

  ghost predicate SameOutside(a: seq<Byte>, b: seq<Byte>, at: nat, len: nat) {
    |a| == |b| && forall y :: 0 <= y < |a| && !(at <= y < at + len) ==> a[y] == b[y]
  }

  /** memcpy, or a remote read. */
  method Move(heap: array<Byte>, at: nat, mem: seq<Byte>, pos: nat, len: nat) returns (ok: bool)
    modifies heap
    ensures ok <==> at + len <= heap.Length && pos + len <= |mem|
    ensures ok ==> forall y :: at <= y < at + len ==> heap[y] == mem[pos + (y - at)]
    ensures SameOutside(heap[..], old(heap[..]), at, len)
  {
    ok := at + len <= heap.Length && pos + len <= |mem|;
    if ok {
      forall j | 0 <= j < len { heap[at + j] := mem[pos + j]; }
    }
  }

  /** Block j of a spread source: it starts at logical byte `start` and at `famPtr` on server `index`. */
  predicate IsBlock(s: Source, j: nat, start: nat, index: nat, famPtr: nat)
    requires WellFormed(s)
  {
    Spread(s) && start == j * s.I && index == j % |s.mems| && famPtr == j / |s.mems| * s.I
  }

  lemma BlockByte(s: Source, j: nat, start: nat, index: nat, famPtr: nat, o: nat)
    requires WellFormed(s) && IsBlock(s, j, start, index, famPtr) && o < s.I
    ensures SrcServer(s, start + o) == index && SrcLocal(s, start + o) == famPtr + o
  {
    DivModOf(j, o, s.I);
  }

  lemma ChunkFilled(heap: seq<Byte>, at: nat, s: Source, j: nat, start: nat, index: nat, famPtr: nat, o: nat, len: nat)
    requires WellFormed(s) && IsBlock(s, j, start, index, famPtr) && index < |s.mems|
    requires o + len <= s.I && at + len <= |heap| && famPtr + o + len <= |s.mems[index]|
    requires forall y :: at <= y < at + len ==> heap[y] == s.mems[index][famPtr + o + (y - at)]
    ensures Filled(heap, at, s, start + o, len)
  {
    forall y | at <= y < at + len ensures heap[y] == SrcByte(s, start + o + (y - at)) {
      BlockByte(s, j, start, index, famPtr, o + (y - at));
    }
  }

  lemma ChunkInMemory(s: Source, j: nat, start: nat, index: nat, famPtr: nat, o: nat, len: nat)
    requires WellFormed(s) && IsBlock(s, j, start, index, famPtr) && index < |s.mems|
    requires o + len <= s.I && len > 0
    ensures famPtr + o + len <= |s.mems[index]| <==> Readable(s, start + o, len)
  {
    if famPtr + o + len <= |s.mems[index]| {
      forall p | start + o <= p < start + o + len ensures InMemory(s, p) {
        BlockByte(s, j, start, index, famPtr, p - start);
      }
    } else {
      BlockByte(s, j, start, index, famPtr, o + len - 1);
      assert !InMemory(s, start + o + len - 1);
    }
  }

  /** One read within a block, from its byte o on. */
  method PullChunk(heap: array<Byte>, at: nat, s: Source, ghost j: nat, ghost start: nat, index: nat, famPtr: nat,
                   o: nat, len: nat) returns (ok: bool)
    requires WellFormed(s) && IsBlock(s, j, start, index, famPtr) && index < |s.mems|
    requires o + len <= s.I && len > 0
    modifies heap
    ensures ok <==> at + len <= heap.Length && Readable(s, start + o, len)
    ensures ok ==> Filled(heap[..], at, s, start + o, len)
    ensures SameOutside(heap[..], old(heap[..]), at, len)
  {
    ChunkInMemory(s, j, start, index, famPtr, o, len);
    ok := Move(heap, at, s.mems[index], famPtr + o, len);
    if ok { ChunkFilled(heap[..], at, s, j, start, index, famPtr, o, len); }
  }

  /** The next block is on the next server, in the next row after the last one. */
  method NextServer(s: Source, index: nat, famPtr: nat, ghost j: nat, ghost start: nat)
    returns (index': nat, famPtr': nat)
    requires WellFormed(s) && IsBlock(s, j, start, index, famPtr)
    ensures IsBlock(s, j + 1, start + s.I, index', famPtr') && index' < |s.mems|
  {
    NextTimes(j, s.I);
    NextTimes(j / |s.mems|, s.I);
    NextBlock(j, |s.mems|);
    index', famPtr' := index + 1, famPtr;
    if index' == |s.mems| {
      index', famPtr' := 0, famPtr' + s.I;
    }
  }

  /** Server, row and displacement of a logical byte. */
  method Locate(s: Source, from: nat) returns (index: nat, famPtr: nat, displacement: nat, ghost start: nat)
    requires WellFormed(s) && Spread(s)
    ensures IsBlock(s, from / s.I, start, index, famPtr) && index < |s.mems|
    ensures from == start + displacement && displacement < s.I
  {
    var j, k := from / s.I, |s.mems|;
    StartRow(j, k);
    index := j % k;
    var row := (j - index) / k;
    famPtr := row * s.I;
    displacement := from % s.I;
    start := j * s.I;
  }

  lemma FilledFurther(a: seq<Byte>, b: seq<Byte>, at: nat, s: Source, from: nat, n: nat, len: nat)
    requires WellFormed(s) && at + n + len <= |a| && Filled(a, at, s, from, n)
    requires SameOutside(b, a, at + n, len) && Filled(b, at + n, s, from + n, len)
    ensures Filled(b, at, s, from, n + len)
  {
    forall y | at <= y < at + (n + len) ensures b[y] == SrcByte(s, from + (y - at)) {
      if y < at + n { assert b[y] == a[y]; } else { assert b[y] == SrcByte(s, from + n + (y - (at + n))); }
    }
  }

  /** Fills a buffer from the start of block j on. */
  method PullBlocks(heap: array<Byte>, at: nat, s: Source, ghost j0: nat, ghost from: nat, index0: nat,
                    famPtr0: nat, len: nat) returns (ok: bool)
    requires WellFormed(s) && IsBlock(s, j0, from, index0, famPtr0) && index0 < |s.mems| && at <= heap.Length
    modifies heap
    ensures ok <==> at + len <= heap.Length && Readable(s, from, len)
    ensures ok ==> Filled(heap[..], at, s, from, len)
    ensures SameOutside(heap[..], old(heap[..]), at, len)
  {
    ghost var j: nat, start: nat := j0, from;
    var index: nat, famPtr: nat, nBytesRead: nat := index0, famPtr0, 0;
    while nBytesRead < len
      invariant nBytesRead <= len && index < |s.mems|
      invariant nBytesRead < len ==> IsBlock(s, j, start, index, famPtr) && start == from + nBytesRead
      invariant at + nBytesRead <= heap.Length && Readable(s, from, nBytesRead)
      invariant Filled(heap[..], at, s, from, nBytesRead)
      invariant SameOutside(heap[..], old(heap[..]), at, nBytesRead)
    {
      var chunk := if len - nBytesRead < s.I then len - nBytesRead else s.I;
      ghost var before := heap[..];
      ok := PullChunk(heap, at + nBytesRead, s, j, start, index, famPtr, 0, chunk);
      if !ok {
        return;
      }
      FilledFurther(before, heap[..], at, s, from, nBytesRead, chunk);
      index, famPtr := NextServer(s, index, famPtr, j, start);
      nBytesRead := nBytesRead + chunk;
      j, start := j + 1, start + s.I;
    }
    ok := true;
  }

  /** Fills one buffer from a source that is spread over several servers. */
  method PullBuffer(heap: array<Byte>, at: nat, s: Source, from: nat, len: nat) returns (ok: bool)
    requires WellFormed(s) && Spread(s) && len > 0
    modifies heap
    ensures ok <==> at + len <= heap.Length && Readable(s, from, len)
    ensures ok ==> Filled(heap[..], at, s, from, len)
    ensures SameOutside(heap[..], old(heap[..]), at, len)
  {
    var index, famPtr, displacement; ghost var start;
    index, famPtr, displacement, start := Locate(s, from);
    ghost var j := from / s.I;
    var nBytesRead := 0;
    var firstBlockSize := s.I - displacement;
    if firstBlockSize < s.I {
      nBytesRead := if len < firstBlockSize then len else firstBlockSize;
      ok := PullChunk(heap, at, s, j, start, index, famPtr, displacement, nBytesRead);
      if !ok || nBytesRead == len {
        return;
      }
      index, famPtr := NextServer(s, index, famPtr, j, start);
      j, start := j + 1, start + s.I;
    }
    if at + nBytesRead > heap.Length {
      return false;
    }
    ghost var before := heap[..];
    ok := PullBlocks(heap, at + nBytesRead, s, j, start, index, famPtr, len - nBytesRead);
    if ok { FilledFurther(before, heap[..], at, s, from, nBytesRead, len - nBytesRead); }
  }

  /** Reads one buffer from the source, spread or not. */
  method Pull(heap: array<Byte>, at: nat, s: Source, from: nat, len: nat) returns (ok: bool)
    requires WellFormed(s) && len > 0
    modifies heap
    ensures ok <==> at + len <= heap.Length && Readable(s, from, len)
    ensures ok ==> Filled(heap[..], at, s, from, len)
    ensures SameOutside(heap[..], old(heap[..]), at, len)
  {
    if |s.mems| == 1 {
      assert Readable(s, from, len) <==> InMemory(s, from + len - 1);
      ok := Move(heap, at, s.mems[0], from, len);
    } else {
      ok := PullBuffer(heap, at, s, from, len);
    }
  }

  // -------------------------------------------------------------------------
  // A request to one destination server

  /** Where the server's part begins in its heap and in the source, and how the item is spread. */
  datatype Job = Job(destOffset: nat, srcStart: nat, srcEnd: nat, I: nat, k: nat)

  predicate Sane(j: Job) { j.I > 0 && j.k > 0 }

  /** The displacement the server computes: from the offset in its heap, not in the item. */
  function Displacement(j: Job): nat
    requires Sane(j)
  {
    j.destOffset % j.I
  }

  /** r steps of a loop. */
  function Stride(r: nat, step: nat): nat { if r == 0 then 0 else Stride(r - 1, step) + step }

  lemma {:induction false} StrideIs(r: nat, step: nat)
    ensures Stride(r, step) == r * step
  {
    if r > 0 {
      StrideIs(r - 1, step);
      NextTimes(r - 1, step);
    }
  }

  lemma {:induction false} StrideMono(q: nat, r: nat, step: nat)
    requires q <= r
    ensures Stride(q, step) <= Stride(r, step)
  {
    if q < r { StrideMono(q, r - 1, step); }
  }

  /** Round r is run: its first source byte lies before the end. */
  predicate Runs(j: Job, r: nat)
    requires Sane(j)
  {
    if r == 0 then j.srcStart < j.srcEnd else j.srcStart + Stride(r, j.k * j.I) < j.srcEnd + Displacement(j)
  }

  /** Position y of the heap, counted from the beginning of the first block. */
  function Ahead(j: Job, y: nat): nat
    requires Sane(j) && y >= j.destOffset
  {
    Displacement(j) + (y - j.destOffset)
  }

  lemma LogicalNotBefore(sv: nat, l: nat, I: nat, k: nat)
    requires I > 0 && k > 0
    ensures Logical(sv, l, I, k) >= l
  {
    var q := l / I;
    MulMono(1, k, q);
    MulMono(q, q * k + sv, I);
    assert l == q * I + l % I;
  }

  /** The source byte that belongs at position y: a block of this server every k blocks. */
  function From(j: Job, y: nat): nat
    requires Sane(j) && y >= j.destOffset
  {
    LogicalNotBefore(0, Ahead(j, y), j.I, j.k);
    j.srcStart + Logical(0, Ahead(j, y), j.I, j.k) - Displacement(j)
  }

  predicate Touched(j: Job, y: nat)
    requires Sane(j)
  {
    y >= j.destOffset && Runs(j, Ahead(j, y) / j.I)
  }

  /** What a request does to the heap. */
  ghost predicate Copied(j: Job, s: Source, before: seq<Byte>, after: seq<Byte>)
    requires Sane(j) && WellFormed(s)
  {
    && |after| == |before|
    && forall y :: 0 <= y < |after| ==>
         after[y] == if Touched(j, y) then SrcByte(s, From(j, y)) else before[y]
  }

  lemma RunsDown(j: Job, q: nat, r: nat)
    requires Sane(j) && q <= r && Runs(j, r)
    ensures Runs(j, q)
  {
    var step := j.k * j.I;
    StrideMono(q, r, step);
    if q == 0 && r > 0 {
      assert step >= j.I by { MulMono(1, j.k, j.I); }
      StrideMono(1, r, step);
    }
  }

  /** Byte o of round r. */
  lemma RoundByte(j: Job, r: nat, o: nat, y: nat)
    requires Sane(j) && o < j.I && y >= j.destOffset && Ahead(j, y) == Stride(r, j.I) + o
    ensures Ahead(j, y) / j.I == r && From(j, y) == j.srcStart + Stride(r, j.k * j.I) + o - Displacement(j)
  {
    StrideIs(r, j.I);
    StrideIs(r, j.k * j.I);
    DivModOf(r, o, j.I);
    assert r * j.k * j.I == r * (j.k * j.I);
  }

  /** Every position the request touches is in the heap, and the byte it needs is in the source's memory. */
  ghost predicate Fits(j: Job, s: Source, length: nat)
    requires Sane(j) && WellFormed(s)
  {
    forall y: nat :: Touched(j, y) ==> y < length && InMemory(s, From(j, y))
  }

  /** The loop variables before round r. */
  predicate AtRound(j: Job, r: nat, cur: nat, ptr: nat, displacement: nat)
    requires Sane(j)
  {
    if r == 0 then cur == j.srcStart && ptr == j.destOffset && displacement == Displacement(j)
    else
      && cur + Displacement(j) == j.srcStart + Stride(r, j.k * j.I)
      && ptr + Displacement(j) == j.destOffset + Stride(r, j.I)
      && displacement == 0
  }

  /** Bytes of round r: touched, and read from where the loop reads. */
  lemma RoundPlace(j: Job, r: nat, cur: nat, ptr: nat, displacement: nat, y: nat)
    requires Sane(j) && AtRound(j, r, cur, ptr, displacement) && cur < j.srcEnd
    requires ptr <= y < ptr + (j.I - displacement)
    ensures y >= j.destOffset && Touched(j, y) && From(j, y) == cur + (y - ptr)
  {
    if r > 0 { StrideMono(1, r, j.I); }
    RoundByte(j, r, displacement + (y - ptr), y);
  }

  lemma NextRound(j: Job, r: nat, cur: nat, ptr: nat, displacement: nat)
    requires Sane(j) && AtRound(j, r, cur, ptr, displacement)
    ensures AtRound(j, r + 1, cur + (j.I - displacement) + (j.k - 1) * j.I, ptr + (j.I - displacement), 0)
  {
    NextTimes(j.k - 1, j.I);
  }

  /** The source offset of the next round: past this block and the blocks of the other servers. */
  method Advance(j: Job, ghost r: nat, cur: nat, ghost ptr: nat, ghost displacement: nat, localBufferSize: nat)
    returns (cur': nat)
    requires Sane(j) && AtRound(j, r, cur, ptr, displacement)
    requires displacement < j.I && localBufferSize == j.I - displacement
    ensures AtRound(j, r + 1, cur', ptr + localBufferSize, 0) && cur' > cur
  {
    NextRound(j, r, cur, ptr, displacement);
    cur' := cur + (localBufferSize + (j.k - 1) * j.I);
  }

  /** Rounds are run up to the first that is not. */
  lemma RunsBelow(j: Job, r: nat, q: nat)
    requires Sane(j) && !Runs(j, r) && (r > 0 ==> Runs(j, r - 1))
    ensures Runs(j, q) <==> q < r
  {
    if q < r { RunsDown(j, q, r - 1); } else if Runs(j, q) { RunsDown(j, r, q); }
  }

  lemma RowBelow(a: nat, r: nat, I: nat)
    requires I > 0
    ensures a / I < r <==> a < Stride(r, I)
  {
    StrideIs(r, I);
    BelowMultiple(a / I, a % I, r, I);
  }

  lemma StopsAt(j: Job, r: nat, cur: nat, ptr: nat, displacement: nat)
    requires Sane(j) && AtRound(j, r, cur, ptr, displacement) && cur >= j.srcEnd
    ensures !Runs(j, r)
  {
  }

  /** The positions before ptr are those of the rounds before r. */
  ghost predicate EndsRow(j: Job, ptr: nat, r: nat)
    requires Sane(j)
  {
    forall y: nat :: y >= j.destOffset ==> (y < ptr <==> Ahead(j, y) / j.I < r)
  }

  lemma PtrEndsRow(j: Job, r: nat, cur: nat, ptr: nat, displacement: nat)
    requires Sane(j) && AtRound(j, r, cur, ptr, displacement)
    ensures EndsRow(j, ptr, r)
  {
    forall y: nat | y >= j.destOffset ensures y < ptr <==> Ahead(j, y) / j.I < r { RowBelow(Ahead(j, y), r, j.I); }
  }

  /** The heap with everything before ptr done. */
  ghost predicate DoneUpTo(j: Job, s: Source, before: seq<Byte>, now: seq<Byte>, ptr: nat)
    requires Sane(j) && WellFormed(s)
  {
    && |now| == |before|
    && forall y :: 0 <= y < |now| ==>
         now[y] == if j.destOffset <= y < ptr then SrcByte(s, From(j, y)) else before[y]
  }

  lemma TouchedBelow(j: Job, r: nat, ptr: nat, y: nat)
    requires Sane(j) && !Runs(j, r) && (r > 0 ==> Runs(j, r - 1)) && EndsRow(j, ptr, r)
    ensures Touched(j, y) <==> j.destOffset <= y < ptr
  {
    if y >= j.destOffset {
      var q := Ahead(j, y) / j.I;
      RunsBelow(j, r, q);
      assert y < ptr <==> q < r;
    }
  }

  /** When the loop ends, what lies before ptr is what the request touches. */
  lemma AllRounds(j: Job, s: Source, before: seq<Byte>, now: seq<Byte>, r: nat, ptr: nat)
    requires Sane(j) && WellFormed(s) && !Runs(j, r) && (r > 0 ==> Runs(j, r - 1)) && EndsRow(j, ptr, r)
    requires DoneUpTo(j, s, before, now, ptr)
    ensures Copied(j, s, before, now)
  {
    forall y: nat | y < |now| ensures Touched(j, y) <==> j.destOffset <= y < ptr { TouchedBelow(j, r, ptr, y); }
  }

  /** What lies before ptr fits. */
  ghost predicate FitsUpTo(j: Job, s: Source, length: nat, ptr: nat)
    requires Sane(j) && WellFormed(s)
  {
    forall y: nat :: j.destOffset <= y < ptr ==> Touched(j, y) && y < length && InMemory(s, From(j, y))
  }

  /** Nothing the request does not touch has changed. */
  ghost predicate SameUntouched(j: Job, before: seq<Byte>, after: seq<Byte>)
    requires Sane(j)
  {
    |after| == |before| && forall y :: 0 <= y < |after| && !Touched(j, y) ==> after[y] == before[y]
  }

  lemma LoopDone(j: Job, s: Source, before: seq<Byte>, now: seq<Byte>, r: nat, cur: nat, ptr: nat, displacement: nat)
    requires Sane(j) && WellFormed(s) && AtRound(j, r, cur, ptr, displacement) && cur >= j.srcEnd
    requires (r > 0 ==> Runs(j, r - 1)) && DoneUpTo(j, s, before, now, ptr)
    ensures Copied(j, s, before, now)
  {
    StopsAt(j, r, cur, ptr, displacement);
    PtrEndsRow(j, r, cur, ptr, displacement);
    AllRounds(j, s, before, now, r, ptr);
  }

  lemma LoopFits(j: Job, s: Source, length: nat, r: nat, cur: nat, ptr: nat, displacement: nat)
    requires Sane(j) && WellFormed(s) && AtRound(j, r, cur, ptr, displacement) && cur >= j.srcEnd
    requires (r > 0 ==> Runs(j, r - 1)) && FitsUpTo(j, s, length, ptr)
    ensures Fits(j, s, length)
  {
    StopsAt(j, r, cur, ptr, displacement);
    PtrEndsRow(j, r, cur, ptr, displacement);
    forall y: nat | Touched(j, y) ensures y < length && InMemory(s, From(j, y)) { TouchedBelow(j, r, ptr, y); }
  }

  /** A round fits exactly if its buffer can be filled. */
  lemma RoundFits(j: Job, s: Source, length: nat, r: nat, cur: nat, ptr: nat, displacement: nat)
    requires Sane(j) && WellFormed(s) && FitsUpTo(j, s, length, ptr)
    requires AtRound(j, r, cur, ptr, displacement) && cur < j.srcEnd && displacement < j.I
    ensures var len := j.I - displacement;
      && Runs(j, r)
      && (FitsUpTo(j, s, length, ptr + len) <==> ptr + len <= length && Readable(s, cur, len))
      && (Fits(j, s, length) ==> FitsUpTo(j, s, length, ptr + len))
  {
    var len := j.I - displacement;
    forall y: nat | ptr <= y < ptr + len ensures y >= j.destOffset && Touched(j, y) && From(j, y) == cur + (y - ptr) {
      RoundPlace(j, r, cur, ptr, displacement, y);
    }
    RoundPlace(j, r, cur, ptr, displacement, ptr + len - 1);
    if FitsUpTo(j, s, length, ptr + len) {
      forall p | cur <= p < cur + len ensures InMemory(s, p) { assert From(j, ptr + (p - cur)) == p; }
    }
  }

  lemma RoundDone(j: Job, s: Source, before: seq<Byte>, was: seq<Byte>, now: seq<Byte>,
                  r: nat, cur: nat, ptr: nat, displacement: nat)
    requires Sane(j) && WellFormed(s) && AtRound(j, r, cur, ptr, displacement) && cur < j.srcEnd && displacement < j.I
    requires ptr + (j.I - displacement) <= |now| && DoneUpTo(j, s, before, was, ptr)
    requires SameOutside(now, was, ptr, j.I - displacement) && Filled(now, ptr, s, cur, j.I - displacement)
    ensures DoneUpTo(j, s, before, now, ptr + (j.I - displacement))
  {
    var len := j.I - displacement;
    forall y | 0 <= y < |now|
      ensures now[y] == if j.destOffset <= y < ptr + len then SrcByte(s, From(j, y)) else before[y]
    {
      if ptr <= y < ptr + len { RoundPlace(j, r, cur, ptr, displacement, y); }
    }
  }

  /** A round that fails has changed touched positions only. */
  lemma RoundConfined(j: Job, s: Source, before: seq<Byte>, was: seq<Byte>, now: seq<Byte>,
                      length: nat, r: nat, cur: nat, ptr: nat, displacement: nat)
    requires Sane(j) && WellFormed(s) && AtRound(j, r, cur, ptr, displacement) && cur < j.srcEnd && displacement < j.I
    requires DoneUpTo(j, s, before, was, ptr) && FitsUpTo(j, s, length, ptr)
    requires SameOutside(now, was, ptr, j.I - displacement)
    ensures SameUntouched(j, before, now)
  {
    forall y | 0 <= y < |now| && !Touched(j, y) ensures now[y] == before[y] {
      if ptr <= y < ptr + (j.I - displacement) { RoundPlace(j, r, cur, ptr, displacement, y); }
    }
  }

  method FillRound(heap: array<Byte>, j: Job, s: Source, ghost before: seq<Byte>, ghost r: nat, cur: nat,
                   ptr: nat, ghost displacement: nat, len: nat)
    returns (ok: bool)
    requires Sane(j) && WellFormed(s) && FitsUpTo(j, s, heap.Length, ptr)
    requires AtRound(j, r, cur, ptr, displacement) && cur < j.srcEnd && displacement < j.I && len == j.I - displacement
    requires DoneUpTo(j, s, before, heap[..], ptr)
    modifies heap
    ensures Runs(j, r)
    ensures if ok then DoneUpTo(j, s, before, heap[..], ptr + len) && FitsUpTo(j, s, heap.Length, ptr + len)
            else SameUntouched(j, before, heap[..]) && !Fits(j, s, heap.Length)
  {
    RoundFits(j, s, heap.Length, r, cur, ptr, displacement);
    ghost var was := heap[..];
    ok := Pull(heap, ptr, s, cur, len);
    if ok {
      RoundDone(j, s, before, was, heap[..], r, cur, ptr, displacement);
    } else {
      RoundConfined(j, s, before, was, heap[..], heap.Length, r, cur, ptr, displacement);
    }
  }

  /** One round: fill the rest of this block, then skip the blocks of the other servers. */
  method CopyRound(heap: array<Byte>, j: Job, s: Source, ghost before: seq<Byte>, ghost r: nat, cur: nat,
                   ptr: nat, displacement: nat)
    returns (ok: bool, cur': nat, ptr': nat)
    requires Sane(j) && WellFormed(s) && FitsUpTo(j, s, heap.Length, ptr)
    requires AtRound(j, r, cur, ptr, displacement) && cur < j.srcEnd && displacement < j.I
    requires DoneUpTo(j, s, before, heap[..], ptr)
    modifies heap
    ensures Runs(j, r) && AtRound(j, r + 1, cur', ptr', 0) && cur' > cur
    ensures if ok then DoneUpTo(j, s, before, heap[..], ptr') && FitsUpTo(j, s, heap.Length, ptr')
            else SameUntouched(j, before, heap[..]) && !Fits(j, s, heap.Length)
  {
    var localBufferSize := if displacement != 0 then j.I - displacement else j.I;
    ok := FillRound(heap, j, s, before, r, cur, ptr, displacement, localBufferSize);
    cur' := Advance(j, r, cur, ptr, displacement, localBufferSize);
    ptr' := ptr + localBufferSize;
  }

  /** The server's loop for a destination spread over several servers. */
  method CopyBlocks(heap: array<Byte>, j: Job, s: Source) returns (ok: bool)
    requires Sane(j) && WellFormed(s)
    modifies heap
    ensures ok <==> Fits(j, s, heap.Length)
    ensures ok ==> Copied(j, s, old(heap[..]), heap[..])
    ensures SameUntouched(j, old(heap[..]), heap[..])
  {
    var displacement: nat := j.destOffset % j.I;
    var cur: nat, ptr: nat := j.srcStart, j.destOffset;
    ghost var r, before := 0, heap[..];
    while cur < j.srcEnd
      invariant AtRound(j, r, cur, ptr, displacement) && displacement < j.I
      invariant r > 0 ==> Runs(j, r - 1)
      invariant DoneUpTo(j, s, before, heap[..], ptr) && FitsUpTo(j, s, heap.Length, ptr)
      decreases j.srcEnd - cur
    {
      ok, cur, ptr := CopyRound(heap, j, s, before, r, cur, ptr, displacement);
      if !ok {
        return;
      }
      displacement := 0;
      r := r + 1;
    }
    LoopDone(j, s, before, heap[..], r, cur, ptr, displacement);
    LoopFits(j, s, heap.Length, r, cur, ptr, displacement);
    ok := true;
  }

  /** Where the source is one server and is this one, every round goes to the place of the first: how much
      of the heap that takes. */
  ghost predicate InPlaceFits(j: Job, s: Source, length: nat)
    requires Sane(j) && WellFormed(s)
  {
    && (forall y: nat :: Touched(j, y) ==> InMemory(s, From(j, y)))
    && (Runs(j, 0) ==> j.destOffset + (if Runs(j, 1) then j.I else j.I - Displacement(j)) <= length)
  }

  /** Where a round after the first reads from. */
  function RoundStart(j: Job, r: nat): (cur: nat)
    requires Sane(j) && r > 0
    ensures cur + Displacement(j) == j.srcStart + Stride(r, j.k * j.I)
  {
    FarEnough(j, r);
    j.srcStart + Stride(r, j.k * j.I) - Displacement(j)
  }

  lemma FarEnough(j: Job, r: nat)
    requires Sane(j) && r > 0
    ensures Stride(r, j.k * j.I) >= j.I
  {
    MulMono(1, j.k, j.I);
    StrideMono(1, r, j.k * j.I);
  }

  ghost predicate SourceUpTo(j: Job, s: Source, ptr: nat)
    requires Sane(j) && WellFormed(s)
  {
    forall y: nat :: j.destOffset <= y < ptr ==> InMemory(s, From(j, y))
  }

  lemma RoundReadable(j: Job, s: Source, r: nat, cur: nat, ptr: nat, displacement: nat)
    requires Sane(j) && WellFormed(s) && SourceUpTo(j, s, ptr)
    requires AtRound(j, r, cur, ptr, displacement) && cur < j.srcEnd && displacement < j.I
    ensures var len := j.I - displacement;
      && Runs(j, r)
      && (Readable(s, cur, len) ==> SourceUpTo(j, s, ptr + len))
      && (!Readable(s, cur, len) ==> exists y: nat :: Touched(j, y) && !InMemory(s, From(j, y)))
  {
    var len := j.I - displacement;
    forall y: nat | ptr <= y < ptr + len ensures y >= j.destOffset && Touched(j, y) && From(j, y) == cur + (y - ptr) {
      RoundPlace(j, r, cur, ptr, displacement, y);
    }
    RoundPlace(j, r, cur, ptr, displacement, ptr);
    if !Readable(s, cur, len) {
      var p :| cur <= p < cur + len && !InMemory(s, p);
      var y := ptr + (p - cur);
      assert Touched(j, y) && From(j, y) == p;
    }
  }

  lemma InPlaceDone(j: Job, s: Source, length: nat, r: nat, cur: nat, ptr: nat, displacement: nat)
    requires Sane(j) && WellFormed(s) && AtRound(j, r, cur, ptr, displacement) && cur >= j.srcEnd
    requires (r > 0 ==> Runs(j, r - 1)) && SourceUpTo(j, s, ptr)
    requires r > 0 ==> j.destOffset + (if r > 1 then j.I else j.I - Displacement(j)) <= length
    ensures InPlaceFits(j, s, length)
  {
    StopsAt(j, r, cur, ptr, displacement);
    PtrEndsRow(j, r, cur, ptr, displacement);
    RunsBelow(j, r, 0);
    RunsBelow(j, r, 1);
    forall y: nat | Touched(j, y) ensures InMemory(s, From(j, y)) { TouchedBelow(j, r, ptr, y); }
  }

  /** That loop before round r. */
  ghost predicate InPlaceSoFar(j: Job, s: Source, before: seq<Byte>, now: seq<Byte>, r: nat, ptr: nat)
    requires Sane(j) && WellFormed(s)
  {
    && (r > 0 ==> Runs(j, r - 1)) && SourceUpTo(j, s, ptr)
    && (r > 0 ==> j.destOffset + (if r > 1 then j.I else j.I - Displacement(j)) <= |now|)
    && (r <= 1 ==> DoneUpTo(j, s, before, now, ptr))
    && (r > 1 ==> HoldsRound(j, s, now, r - 1))
    && SameOutside(now, before, j.destOffset, j.I)
  }

  /** The first block holds the bytes of the last round. */
  ghost predicate LastRoundHere(j: Job, s: Source, now: seq<Byte>)
    requires Sane(j) && WellFormed(s)
  {
    exists r: nat :: r > 0 && Runs(j, r) && !Runs(j, r + 1) && HoldsRound(j, s, now, r)
  }

  ghost predicate HoldsRound(j: Job, s: Source, now: seq<Byte>, r: nat)
    requires Sane(j) && WellFormed(s) && r > 0
  {
    j.destOffset + j.I <= |now| && Filled(now, j.destOffset, s, RoundStart(j, r), j.I)
  }

  lemma InPlaceEnds(j: Job, s: Source, before: seq<Byte>, now: seq<Byte>, r: nat, cur: nat, ptr: nat, displacement: nat)
    requires Sane(j) && WellFormed(s) && AtRound(j, r, cur, ptr, displacement) && cur >= j.srcEnd
    requires InPlaceSoFar(j, s, before, now, r, ptr)
    ensures if Runs(j, 1) then LastRoundHere(j, s, now) else Copied(j, s, before, now)
  {
    StopsAt(j, r, cur, ptr, displacement);
    RunsBelow(j, r, 1);
    if r <= 1 {
      LoopDone(j, s, before, now, r, cur, ptr, displacement);
    } else {
      assert HoldsRound(j, s, now, r - 1);
    }
  }

  method InPlaceRound(heap: array<Byte>, j: Job, s: Source, ghost before: seq<Byte>, ghost r: nat, cur: nat,
                      ghost ptr: nat, displacement: nat) returns (ok: bool, len: nat)
    requires Sane(j) && WellFormed(s) && AtRound(j, r, cur, ptr, displacement) && displacement < j.I && cur < j.srcEnd
    requires InPlaceSoFar(j, s, before, heap[..], r, ptr)
    modifies heap
    ensures len == j.I - displacement
    ensures if ok then InPlaceSoFar(j, s, before, heap[..], r + 1, ptr + len)
            else !InPlaceFits(j, s, heap.Length) && SameOutside(heap[..], before, j.destOffset, j.I)
  {
    len := if displacement != 0 then j.I - displacement else j.I;
    RoundReadable(j, s, r, cur, ptr, displacement);
    ghost var was := heap[..];
    ok := Pull(heap, j.destOffset, s, cur, len);
    if !ok {
      RunsDown(j, 0, r);
      if r > 0 { RunsDown(j, 1, r); }
    } else if r == 0 {
      RoundDone(j, s, before, was, heap[..], r, cur, ptr, displacement);
    }
  }

  /** That loop: it writes one block at most, is right where a second round is not run, and otherwise
      leaves the bytes of the last round in the place of the first. */
  method CopyInPlace(heap: array<Byte>, j: Job, s: Source) returns (ok: bool)
    requires Sane(j) && WellFormed(s)
    modifies heap
    ensures ok <==> InPlaceFits(j, s, heap.Length)
    ensures SameOutside(heap[..], old(heap[..]), j.destOffset, j.I)
    ensures ok && !Runs(j, 1) ==> Copied(j, s, old(heap[..]), heap[..])
    ensures ok && Runs(j, 1) ==> LastRoundHere(j, s, heap[..])
  {
    var displacement: nat := j.destOffset % j.I;
    var cur: nat := j.srcStart;
    ghost var ptr: nat, r, before := j.destOffset, 0, heap[..];
    while cur < j.srcEnd
      invariant AtRound(j, r, cur, ptr, displacement) && displacement < j.I
      invariant InPlaceSoFar(j, s, before, heap[..], r, ptr)
      decreases j.srcEnd - cur
    {
      var localBufferSize;
      ok, localBufferSize := InPlaceRound(heap, j, s, before, r, cur, ptr, displacement);
      if !ok {
        return;
      }
      cur := Advance(j, r, cur, ptr, displacement, localBufferSize);
      ptr := ptr + localBufferSize;
      displacement := 0;
      r := r + 1;
    }
    InPlaceDone(j, s, heap.Length, r, cur, ptr, displacement);
    InPlaceEnds(j, s, before, heap[..], r, cur, ptr, displacement);
    ok := true;
  }

  /** With two rounds or more, that loop leaves bytes it should copy as they were. */
  lemma InPlaceMisses(j: Job) returns (y: nat)
    requires Sane(j) && Runs(j, 1)
    ensures Touched(j, y) && y >= j.destOffset + j.I
  {
    y := j.destOffset + (j.I - Displacement(j)) + (j.I - 1);
    RoundByte(j, 1, j.I - 1, y);
  }

  ghost predicate WholeFits(destOffset: nat, s: Source, srcStart: nat, size: nat, length: nat)
    requires WellFormed(s)
  {
    size > 0 ==> destOffset + size <= length && Readable(s, srcStart, size)
  }

  /** The same loop for a destination on one server: one round of the whole size. */
  method CopyWhole(heap: array<Byte>, destOffset: nat, s: Source, srcStart: nat, size: nat) returns (ok: bool)
    requires WellFormed(s)
    modifies heap
    ensures ok <==> WholeFits(destOffset, s, srcStart, size, heap.Length)
    ensures ok && size > 0 ==> Filled(heap[..], destOffset, s, srcStart, size)
    ensures SameOutside(heap[..], old(heap[..]), destOffset, size)
  {
    var cur := srcStart;
    while cur < srcStart + size
      invariant cur == srcStart || cur == srcStart + size
      invariant cur == srcStart + size && size > 0 ==>
        WholeFits(destOffset, s, srcStart, size, heap.Length) && Filled(heap[..], destOffset, s, srcStart, size)
      invariant SameOutside(heap[..], old(heap[..]), destOffset, size)
    {
      ok := Pull(heap, destOffset, s, cur, size);
      if !ok {
        return;
      }
      cur := cur + size;
    }
    ok := true;
  }

  // -------------------------------------------------------------------------
  // The whole request

  /** The request is carried out: the server's division by the block size, its reads and its writes succeed. */
  ghost predicate Serves(j: Job, s: Source, size: nat, same: bool, length: nat)
    requires WellFormed(s) && j.k > 0
  {
    && j.I > 0
    && if j.k == 1 then WholeFits(j.destOffset, s, j.srcStart, size, length)
       else if !Spread(s) && same then InPlaceFits(j, s, length)
       else Fits(j, s, length)
  }

  /** What it then does to the heap. */
  ghost predicate Effect(j: Job, s: Source, size: nat, same: bool, before: seq<Byte>, after: seq<Byte>)
    requires WellFormed(s) && Sane(j) && |before| == |after|
    requires j.k == 1 ==> WholeFits(j.destOffset, s, j.srcStart, size, |after|)
  {
    if j.k == 1 then size > 0 ==> Filled(after, j.destOffset, s, j.srcStart, size)
    else if Spread(s) || !same || !Runs(j, 1) then Copied(j, s, before, after)
    else LastRoundHere(j, s, after)
  }

  /** What it leaves alone, also when it fails. */
  ghost predicate Confined(j: Job, s: Source, size: nat, same: bool, before: seq<Byte>, after: seq<Byte>)
  {
    if j.I == 0 || j.k == 0 then after == before
    else if j.k == 1 then SameOutside(after, before, j.destOffset, size)
    else if !Spread(s) && same then SameOutside(after, before, j.destOffset, j.I)
    else SameUntouched(j, before, after)
  }

  /** Fam_Memory_Service_Direct::copy; `same` says that the first source server is this one. */
  method ServerCopy(heap: array<Byte>, j: Job, s: Source, size: nat, same: bool) returns (ok: bool)
    requires WellFormed(s) && j.k > 0 && (j.k == 1 ==> j.srcEnd == j.srcStart + size)
    modifies heap
    ensures ok <==> Serves(j, s, size, same, heap.Length)
    ensures ok ==> Effect(j, s, size, same, old(heap[..]), heap[..])
    ensures Confined(j, s, size, same, old(heap[..]), heap[..])
  {
    if j.I == 0 {
      return false;
    }
    if j.k == 1 {
      ok := CopyWhole(heap, j.destOffset, s, j.srcStart, size);
    } else if |s.mems| == 1 && same {
      ok := CopyInPlace(heap, j, s);
    } else {
      ok := CopyBlocks(heap, j, s);
    }
  }
}
