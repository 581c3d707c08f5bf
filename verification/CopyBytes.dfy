/**
 A whole copy, from the dispatch in the client interface service down to the bytes in the
 destination servers' heaps.
 */
module CopyBytes {
  import opened Layout
  import opened Allocation
  import opened CopyDispatch
  import opened CopyServer

  /** The logical destination bytes a copy writes: up to the end of the last block it reaches. */
  predicate Written(d: nat, destStart: nat, size: nat, I: nat)
    requires I > 0
  {
    destStart <= d && if d / I == destStart / I then size > 0 else d / I * I < destStart + size
  }

  // -------------------------------------------------------------------------
  // One request seen from the layout

  // Products are written as strides so that each step below is linear.

  lemma {:induction false} StrideAdd(a: nat, b: nat, step: nat)
    ensures Stride(a + b, step) == Stride(a, step) + Stride(b, step)
  {
    if b > 0 { StrideAdd(a, b - 1, step); }
  }

  lemma {:induction false} StrideNest(r: nat, k: nat, I: nat)
    ensures Stride(Stride(r, k), I) == Stride(r, k * I)
  {
    if r > 0 {
      StrideNest(r - 1, k, I);
      StrideAdd(Stride(r - 1, k), k, I);
      StrideIs(k, I);
    }
  }

  lemma StrideDivMod(n: nat, o: nat, I: nat)
    requires o < I
    ensures (Stride(n, I) + o) / I == n && (Stride(n, I) + o) % I == o
  {
    StrideIs(n, I);
    DivModOf(n, o, I);
  }

  /** Every number is a stride and a rest. */
  lemma StrideSplit(n: nat, I: nat)
    requires I > 0
    ensures n == Stride(n / I, I) + n % I
  {
    StrideIs(n / I, I);
  }

  /** Offset o of row `row` of server sv is offset o of block Stride(row, k) + sv. */
  lemma LogicalAt(sv: nat, row: nat, o: nat, I: nat, k: nat)
    requires o < I && k > 0
    ensures Logical(sv, Stride(row, I) + o, I, k) == Stride(Stride(row, k) + sv, I) + o
  {
    StrideDivMod(row, o, I);
    StrideIs(row, k);
    StrideIs(Stride(row, k) + sv, I);
  }

  lemma RowsDownAt(row: nat, r: nat, sv: nat, b: nat, o: nat, I: nat, k: nat, l: nat)
    requires o < I && k > 0 && b == Stride(row, k) + sv && l == Stride(row, I) + Stride(r, I) + o
    ensures Logical(sv, l, I, k) == Stride(b + Stride(r, k), I) + o
  {
    StrideAdd(row, r, I);
    StrideAdd(row, r, k);
    LogicalAt(sv, row + r, o, I, k);
  }

  lemma BlockParts(b: nat, m: nat, o: nat, I: nat, d: nat)
    requires o < I && d == Stride(b + m, I) + o
    ensures d == Stride(b, I) + Stride(m, I) + o && d / I == b + m && d % I == o
  {
    StrideDivMod(b + m, o, I);
    StrideAdd(b, m, I);
  }

  /** r rows further down on a server is r * k blocks further on in the item. */
  lemma RowsDown(b: nat, r: nat, o: nat, I: nat, k: nat, d: nat)
    requires o < I && d == Stride(b + Stride(r, k), I) + o
    ensures d == Stride(b, I) + Stride(r, k * I) + o && d / I == b + Stride(r, k) && d % I == o
  {
    BlockParts(b, Stride(r, k), o, I, d);
    StrideNest(r, k, I);
  }

  /** With a base on a block boundary, the displacement in the heap is that in the block. */
  lemma Displaced(base: nat, row: nat, o: nat, I: nat)
    requires o < I && base % I == 0
    ensures (base + (Stride(row, I) + o)) % I == o
  {
    StrideSplit(base, I);
    StrideAdd(base / I, row, I);
    StrideDivMod(base / I + row, o, I);
  }

  datatype Request = Request(srcStart: nat, destStart: nat, size: nat, I: nat, k: nat)

  predicate Valid(q: Request) { q.I > 0 && q.k > 1 }

  /** The call that dispatch sends as its i-th. */
  predicate IsCall(q: Request, c: Call, i: nat)
    requires Valid(q)
  {
    i < q.k && Aligned(c, i, q.srcStart, q.destStart, q.I, q.k) && c.srcEnd == q.srcStart + q.size
  }

  function JobOf(q: Request, c: Call, base: nat): Job { Job(base + c.local, c.srcStart, c.srcEnd, q.I, q.k) }

  /** A call starts at offset o0 of row `row` of its server, which is offset o0 of block b of the item. */
  ghost predicate StartsAt(q: Request, c: Call, i: nat, row: nat, b: nat, d0: nat, o0: nat)
    requires Valid(q)
  {
    && c.idx < q.k && o0 < q.I && c.local == Stride(row, q.I) + o0
    && d0 == Stride(b, q.I) + o0 && b == Stride(row, q.k) + c.idx && b == q.destStart / q.I + i
    && q.destStart <= d0 && c.srcStart == q.srcStart + (d0 - q.destStart)
    && if i == 0 then d0 == q.destStart else o0 == 0
  }

  /** Byte d is offset o of block b, which is in row `row` of its server. */
  lemma PlaceParts(d: nat, I: nat, k: nat) returns (row: nat, b: nat, o: nat)
    requires I > 0 && k > 0
    ensures b == d / I && o == d % I < I && d == Stride(b, I) + o
    ensures Server(d, I, k) < k && b == Stride(row, k) + Server(d, I, k) && Local(d, I, k) == Stride(row, I) + o
  {
    b, o := d / I, d % I;
    row := b / k;
    StrideSplit(d, I);
    StrideSplit(b, k);
    StrideIs(row, I);
  }

  lemma CallStart(q: Request, c: Call, i: nat) returns (row: nat, b: nat, d0: nat, o0: nat)
    requires Valid(q) && IsCall(q, c, i)
    ensures StartsAt(q, c, i, row, b, d0, o0)
  {
    d0 := FirstByte(q.destStart, q.I, i);
    FirstByteNotBefore(q.destStart, q.I, i);
    row, b, o0 := PlaceParts(d0, q.I, q.k);
  }

  /** A position before the call's first: its byte lies before the copy. */
  lemma EarlierPlace(q: Request, c: Call, i: nat, row: nat, b: nat, d0: nat, o0: nat, row': nat, o: nat)
    requires Valid(q) && i < q.k && StartsAt(q, c, i, row, b, d0, o0)
    requires o < q.I && row' <= row && (row' == row ==> o < o0)
    ensures Logical(c.idx, Stride(row', q.I) + o, q.I, q.k) < q.destStart
    ensures Stride(row', q.I) + o < c.local
  {
    LogicalAt(c.idx, row', o, q.I, q.k);
    if row' < row {
      StrideMono(row' + 1, row, q.k);
      StrideMono(row' + 1, row, q.I);
      BlockBefore(Stride(row', q.k) + c.idx, o, q.destStart, q.I);
    }
  }

  lemma BlockBefore(b: nat, o: nat, d: nat, I: nat)
    requires o < I && b < d / I
    ensures Stride(b, I) + o < d
  {
    StrideMono(b + 1, d / I, I);
    StrideSplit(d, I);
  }

  /** Logical byte d is offset o of the block r rows after the call's first. */
  ghost predicate FurtherOn(q: Request, i: nat, d0: nat, o0: nat, r: nat, o: nat, d: nat)
    requires Valid(q)
  {
    && q.destStart <= d0 && o0 <= d0 && q.destStart <= d && (if i == 0 then d0 == q.destStart else o0 == 0)
    && d == d0 - o0 + Stride(r, q.k * q.I) + o && d % q.I == o && d / q.I == q.destStart / q.I + i + Stride(r, q.k)
  }

  /** Position y is touched in round r, and read from as far on in the source. */
  ghost predicate InRound(q: Request, c: Call, j: Job, y: nat, d0: nat, o0: nat, r: nat, o: nat)
    requires Sane(j)
  {
    && c.srcStart == q.srcStart + (d0 - q.destStart)
    && y >= j.destOffset && From(j, y) == c.srcStart + Stride(r, q.k * q.I) + o - o0
    && (Touched(j, y) <==>
        if r == 0 then c.srcStart < q.srcStart + q.size
        else c.srcStart + Stride(r, q.k * q.I) < q.srcStart + q.size + o0)
  }

  /** A position from the call's first on, r rows below it at offset o: its logical byte, ... */
  lemma LaterByte(q: Request, c: Call, i: nat, row: nat, b: nat, d0: nat, o0: nat, r: nat, o: nat, l: nat)
    requires Valid(q) && StartsAt(q, c, i, row, b, d0, o0) && o < q.I && (r == 0 ==> o >= o0)
    requires l == Stride(row, q.I) + Stride(r, q.I) + o
    ensures FurtherOn(q, i, d0, o0, r, o, Logical(c.idx, l, q.I, q.k))
  {
    RowsDownAt(row, r, c.idx, b, o, q.I, q.k, l);
    FurtherBlock(q, i, b, d0, o0, r, o, Logical(c.idx, l, q.I, q.k));
  }

  lemma FurtherBlock(q: Request, i: nat, b: nat, d0: nat, o0: nat, r: nat, o: nat, d: nat)
    requires Valid(q) && o0 < q.I && o < q.I && d0 == Stride(b, q.I) + o0 && b == q.destStart / q.I + i
    requires q.destStart <= d0 && (if i == 0 then d0 == q.destStart else o0 == 0) && (r == 0 ==> o >= o0)
    requires d == Stride(b + Stride(r, q.k), q.I) + o
    ensures FurtherOn(q, i, d0, o0, r, o, d)
  {
    RowsDown(b, r, o, q.I, q.k, d);
    if r > 0 {
      StrideMono(1, r, q.k * q.I);
      AtLeastOne(q.k, q.I);
    }
  }

  lemma AtLeastOne(k: nat, I: nat)
    requires k > 0
    ensures Stride(1, k * I) >= I
  {
    MulMono(1, k, I);
  }

  /** ... and what the request does there. */
  lemma LaterRound(q: Request, c: Call, i: nat, row: nat, b: nat, d0: nat, o0: nat, base: nat, r: nat, o: nat, l: nat)
    requires Valid(q) && StartsAt(q, c, i, row, b, d0, o0) && c.srcEnd == q.srcStart + q.size && base % q.I == 0
    requires o < q.I && (r == 0 ==> o >= o0) && l == Stride(row, q.I) + Stride(r, q.I) + o
    ensures InRound(q, c, JobOf(q, c, base), base + l, d0, o0, r, o)
  {
    var j := JobOf(q, c, base);
    assert Displacement(j) == o0 by { Displaced(base, row, o0, q.I); }
    if r > 0 { StrideMono(1, r, q.I); }
    RoundByte(j, r, o, base + l);
  }

  /** A block is written exactly if it begins before the end of the copy. */
  lemma RowsWritten(q: Request, c: Call, i: nat, j: Job, y: nat, d0: nat, o0: nat, r: nat, o: nat, d: nat)
    requires Valid(q) && Sane(j) && FurtherOn(q, i, d0, o0, r, o, d) && InRound(q, c, j, y, d0, o0, r, o)
    ensures Touched(j, y) <==> Written(d, q.destStart, q.size, q.I)
  {
    BlockStart(d, q.I);
    if r > 0 { StrideMono(1, r, q.k); }
  }

  lemma BlockStart(d: nat, I: nat)
    requires I > 0
    ensures d / I * I == d - d % I
  {
  }

  /** The request touches position y exactly if its logical byte d is written, and from the right byte. */
  predicate PlaceOk(q: Request, j: Job, y: nat, d: nat)
    requires Valid(q) && Sane(j)
  {
    && (Touched(j, y) <==> Written(d, q.destStart, q.size, q.I))
    && (Touched(j, y) ==> q.destStart <= d && From(j, y) == q.srcStart + (d - q.destStart))
  }

  lemma PlaceAfter(q: Request, c: Call, i: nat, row: nat, b: nat, d0: nat, o0: nat, base: nat, r: nat, o: nat, l: nat)
    requires Valid(q) && i < q.k && StartsAt(q, c, i, row, b, d0, o0)
    requires c.srcEnd == q.srcStart + q.size && base % q.I == 0
    requires o < q.I && (r == 0 ==> o >= o0) && l == Stride(row, q.I) + Stride(r, q.I) + o
    ensures PlaceOk(q, JobOf(q, c, base), base + l, Logical(c.idx, l, q.I, q.k))
  {
    LaterByte(q, c, i, row, b, d0, o0, r, o, l);
    LaterRound(q, c, i, row, b, d0, o0, base, r, o, l);
    RowsWritten(q, c, i, JobOf(q, c, base), base + l, d0, o0, r, o, Logical(c.idx, l, q.I, q.k));
  }

  /** What a request does at position base + l of its server's heap, in terms of the logical byte there. */
  lemma JobPlace(q: Request, c: Call, i: nat, base: nat, l: nat)
    requires Valid(q) && IsCall(q, c, i) && base % q.I == 0
    ensures PlaceOk(q, JobOf(q, c, base), base + l, Logical(c.idx, l, q.I, q.k))
  {
    var row, b, d0, o0 := CallStart(q, c, i);
    JobPlaceAt(q, c, i, row, b, d0, o0, base, l / q.I, l % q.I, l);
  }

  lemma JobPlaceAt(q: Request, c: Call, i: nat, row: nat, b: nat, d0: nat, o0: nat, base: nat, row': nat, o: nat,
                   l: nat)
    requires Valid(q) && i < q.k && StartsAt(q, c, i, row, b, d0, o0)
    requires c.srcEnd == q.srcStart + q.size && base % q.I == 0
    requires row' == l / q.I && o == l % q.I
    ensures PlaceOk(q, JobOf(q, c, base), base + l, Logical(c.idx, l, q.I, q.k))
  {
    StrideSplit(l, q.I);
    if row' < row || (row' == row && o < o0) {
      EarlierPlace(q, c, i, row, b, d0, o0, row', o);
    } else {
      StrideAdd(row, row' - row, q.I);
      PlaceAfter(q, c, i, row, b, d0, o0, base, row' - row, o, l);
    }
  }

  // -------------------------------------------------------------------------
  // All requests

  /** Server sv's heap, with the item at `base`, after the copy. */
  ghost predicate ServerDone(q: Request, sv: nat, base: nat, s: Source, before: seq<Byte>, after: seq<Byte>)
    requires Valid(q) && WellFormed(s)
  {
    && |after| == |before|
    && forall y :: 0 <= y < |after| ==>
         after[y] == if IsWritten(q, sv, base, y) then SrcByte(s, Origin(q, sv, base, y)) else before[y]
  }

  predicate IsWritten(q: Request, sv: nat, base: nat, y: nat)
    requires Valid(q)
  {
    y >= base && Written(Logical(sv, y - base, q.I, q.k), q.destStart, q.size, q.I)
  }

  /** The source byte for position y. */
  function Origin(q: Request, sv: nat, base: nat, y: nat): nat
    requires Valid(q) && IsWritten(q, sv, base, y)
  {
    q.srcStart + (Logical(sv, y - base, q.I, q.k) - q.destStart)
  }

  /** For an item on a block boundary, the request fits exactly if every byte the copy writes on this server
      has its place in the heap and its origin in the source's memory. */
  lemma FitsIff(q: Request, c: Call, i: nat, base: nat, s: Source, length: nat)
    requires Valid(q) && WellFormed(s) && IsCall(q, c, i) && base % q.I == 0
    ensures Fits(JobOf(q, c, base), s, length) <==>
      forall y: nat :: IsWritten(q, c.idx, base, y) ==> y < length && InMemory(s, Origin(q, c.idx, base, y))
  {
    var j := JobOf(q, c, base);
    forall y: nat
      ensures Touched(j, y) <==> IsWritten(q, c.idx, base, y)
      ensures Touched(j, y) ==> From(j, y) == Origin(q, c.idx, base, y)
    {
      if y >= base { JobPlace(q, c, i, base, y - base); }
    }
  }

  lemma JobDone(q: Request, c: Call, i: nat, base: nat, s: Source, before: seq<Byte>, after: seq<Byte>)
    requires Valid(q) && WellFormed(s) && IsCall(q, c, i) && base % q.I == 0
    requires Copied(JobOf(q, c, base), s, before, after)
    ensures ServerDone(q, c.idx, base, s, before, after)
  {
    var j := JobOf(q, c, base);
    forall y: nat | y < |after|
      ensures after[y] == if IsWritten(q, c.idx, base, y) then SrcByte(s, Origin(q, c.idx, base, y)) else before[y]
    {
      if y >= base { JobPlace(q, c, i, base, y - base); }
      assert after[y] == if Touched(j, y) then SrcByte(s, From(j, y)) else before[y];
    }
  }

  lemma ServersDistinct(q: Request, c: Call, i: nat, c': Call, i': nat)
    requires Valid(q) && IsCall(q, c, i) && IsCall(q, c', i') && i < i'
    ensures c.idx != c'.idx
  {
    var row, b, d0, o0 := CallStart(q, c, i);
    var row', b', d0', o0' := CallStart(q, c', i');
    if row' > row { StrideMono(row + 1, row', q.k); } else { StrideMono(row', row, q.k); }
  }

  /** Which call goes to server sv. */
  function CallIndex(q: Request, sv: nat): nat
    requires Valid(q) && sv < q.k
  {
    var m := q.destStart / q.I % q.k;
    if sv >= m then sv - m else sv + q.k - m
  }

  /** The call that dispatch sends as its i-th is determined. */
  function CallOf(q: Request, i: nat): Call
    requires Valid(q)
  {
    FirstByteNotBefore(q.destStart, q.I, i);
    var d := FirstByte(q.destStart, q.I, i);
    Call(Server(d, q.I, q.k), Local(d, q.I, q.k), q.srcStart + (d - q.destStart), q.srcStart + q.size)
  }

  lemma EveryServer(q: Request, sv: nat)
    requires Valid(q) && sv < q.k
    ensures var i := CallIndex(q, sv); IsCall(q, CallOf(q, i), i) && CallOf(q, i).idx == sv
  {
    FirstByteNotBefore(q.destStart, q.I, CallIndex(q, sv));
    WrapsTo(q.destStart / q.I, sv, q.k);
  }

  /** How far on from block b the next block of server sv is. */
  lemma WrapsTo(b: nat, sv: nat, k: nat)
    requires sv < k
    ensures var m := b % k; (b + if sv >= m then sv - m else sv + k - m) % k == sv
  {
    StrideSplit(b, k);
    StrideDivMod(if sv >= b % k then b / k else b / k + 1, sv, k);
  }

  /** The request server sv gets, with the item at `base` of its heap. */
  function JobFor(q: Request, sv: nat, base: nat): Job
    requires Valid(q) && sv < q.k
  {
    JobOf(q, CallOf(q, CallIndex(q, sv)), base)
  }

  /** Every call goes to one server, and is that server's. */
  lemma CallIsServers(q: Request, c: Call, i: nat, base: nat)
    requires Valid(q) && IsCall(q, c, i)
    ensures c.idx < q.k && CallIndex(q, c.idx) == i && JobOf(q, c, base) == JobFor(q, c.idx, base)
  {
    var row, b, d0, o0 := CallStart(q, c, i);
    EveryServer(q, c.idx);
    var i' := CallIndex(q, c.idx);
    if i < i' { ServersDistinct(q, c, i, CallOf(q, i'), i'); }
    if i' < i { ServersDistinct(q, CallOf(q, i'), i', c, i); }
  }

  /** Server sv's heap after its request. */
  ghost predicate Ended(q: Request, sv: nat, base: nat, s: Source, same: bool, before: seq<Byte>, after: seq<Byte>)
    requires Valid(q) && WellFormed(s) && sv < q.k
  {
    var j := JobFor(q, sv, base);
    && |after| == |before| && Confined(j, s, q.size, same, before, after)
    && (Serves(j, s, q.size, same, |after|) ==> Effect(j, s, q.size, same, before, after))
  }

  /** For an item on a block boundary, that is what ServerDone says. */
  lemma EndedDone(q: Request, sv: nat, base: nat, s: Source, same: bool, before: seq<Byte>, after: seq<Byte>)
    requires Valid(q) && WellFormed(s) && sv < q.k && base % q.I == 0
    requires Ended(q, sv, base, s, same, before, after) && Serves(JobFor(q, sv, base), s, q.size, same, |after|)
    requires Spread(s) || !same || !Runs(JobFor(q, sv, base), 1)
    ensures ServerDone(q, sv, base, s, before, after)
  {
    EveryServer(q, sv);
    var i := CallIndex(q, sv);
    JobDone(q, CallOf(q, i), i, base, s, before, after);
  }

  /** Server sv's heap after the first n calls. */
  ghost predicate After(q: Request, n: nat, sv: nat, base: nat, s: Source, same: bool, before: seq<Byte>,
                        now: seq<Byte>)
    requires Valid(q) && WellFormed(s) && sv < q.k
  {
    if CallIndex(q, sv) < n then Ended(q, sv, base, s, same, before, now) else now == before
  }

  datatype Outcome = Done | Rejected | Failed

  /** One call, carried out by its server. */
  method RunCall(heaps: seq<array<Byte>>, bases: seq<nat>, s: Source, same: seq<bool>, q: Request, c: Call,
                 ghost n: nat)
    returns (ok: bool)
    requires Valid(q) && WellFormed(s) && |heaps| == |bases| == |same| == q.k && IsCall(q, c, n)
    requires forall i, j :: 0 <= i < j < |heaps| ==> heaps[i] != heaps[j]
    modifies heaps
    ensures c.idx < q.k && CallIndex(q, c.idx) == n
    ensures Ended(q, c.idx, bases[c.idx], s, same[c.idx], old(heaps[c.idx][..]), heaps[c.idx][..])
    ensures forall sv :: 0 <= sv < q.k && sv != c.idx ==> heaps[sv][..] == old(heaps[sv][..])
    ensures ok <==> Serves(JobFor(q, c.idx, bases[c.idx]), s, q.size, same[c.idx], heaps[c.idx].Length)
  {
    CallIsServers(q, c, n, bases[if c.idx < q.k then c.idx else 0]);
    var heap, base := heaps[c.idx], bases[c.idx];
    ok := ServerCopy(heap, JobOf(q, c, base), s, q.size, same[c.idx]);
  }

  /** A copy into an item on several servers, wherever the item lies in their heaps and wherever the source is. */
  method CopySpread(heaps: seq<array<Byte>>, bases: seq<nat>, s: Source, same: seq<bool>, q: Request,
                    srcSize: nat, destSize: nat)
    returns (r: Outcome)
    requires Valid(q) && WellFormed(s) && |heaps| == |bases| == |same| == q.k
    requires forall i, j :: 0 <= i < j < |heaps| ==> heaps[i] != heaps[j]
    modifies heaps
    ensures r == Rejected <==> q.srcStart + q.size > srcSize || q.destStart + q.size > destSize
    ensures r == Rejected ==> forall sv :: 0 <= sv < q.k ==> heaps[sv][..] == old(heaps[sv][..])
    ensures r != Rejected ==> forall sv :: 0 <= sv < q.k ==>
      Ended(q, sv, bases[sv], s, same[sv], old(heaps[sv][..]), heaps[sv][..])
    ensures r == Done ==> forall sv :: 0 <= sv < q.k ==>
      Serves(JobFor(q, sv, bases[sv]), s, q.size, same[sv], heaps[sv].Length)
    ensures r == Failed ==>
      exists sv :: 0 <= sv < q.k && !Serves(JobFor(q, sv, bases[sv]), s, q.size, same[sv], heaps[sv].Length)
  {
    var dispatched := Copy(srcSize, destSize, q.srcStart, q.destStart, q.size, q.I, q.k);
    if dispatched.OutOfRange? {
      return Rejected;
    }
    var calls := dispatched.value;
    r := Done;
    for n := 0 to q.k
      invariant r != Rejected
      invariant forall sv :: 0 <= sv < q.k ==>
        After(q, n, sv, bases[sv], s, same[sv], old(heaps[sv][..]), heaps[sv][..])
      invariant r == Done ==> forall sv :: 0 <= sv < q.k && CallIndex(q, sv) < n ==>
        Serves(JobFor(q, sv, bases[sv]), s, q.size, same[sv], heaps[sv].Length)
      invariant r == Failed ==>
        exists sv :: 0 <= sv < q.k && !Serves(JobFor(q, sv, bases[sv]), s, q.size, same[sv], heaps[sv].Length)
    {
      assert IsCall(q, calls[n], n);
      var ok := RunCall(heaps, bases, s, same, q, calls[n], n);
      if !ok {
        r := Failed;
      }
      forall sv | 0 <= sv < q.k && CallIndex(q, sv) == n ensures sv == calls[n].idx { SameCall(q, sv, calls[n].idx); }
    }
    forall sv | 0 <= sv < q.k ensures CallIndex(q, sv) < q.k { EveryServer(q, sv); }
  }

  lemma SameCall(q: Request, sv: nat, sv': nat)
    requires Valid(q) && sv < q.k && sv' < q.k && CallIndex(q, sv) == CallIndex(q, sv')
    ensures sv == sv'
  {
    EveryServer(q, sv);
    EveryServer(q, sv');
  }

  /** A copy into an item on one server: it fails where the server divides by a block size of 0, or a read or
      write leaves the memory. */
  method CopySingle(heap: array<Byte>, base: nat, s: Source, srcStart: nat, destStart: nat, size: nat, I: nat,
                    srcSize: nat, destSize: nat, same: bool)
    returns (r: Outcome)
    requires WellFormed(s)
    modifies heap
    ensures r == Rejected <==> srcStart + size > srcSize || destStart + size > destSize
    ensures r == Done ==> I > 0 && WholeFits(base + destStart, s, srcStart, size, heap.Length)
    ensures r == Failed ==> I == 0 || !WholeFits(base + destStart, s, srcStart, size, heap.Length)
    ensures r == Done && size > 0 ==> Filled(heap[..], base + destStart, s, srcStart, size)
    ensures SameOutside(heap[..], old(heap[..]), base + destStart, if r == Rejected then 0 else size)
  {
    var dispatched := Copy(srcSize, destSize, srcStart, destStart, size, I, 1);
    if dispatched.OutOfRange? {
      return Rejected;
    }
    var c := dispatched.value[0];
    var ok := ServerCopy(heap, Job(base + c.local, c.srcStart, c.srcEnd, I, 1), s, size, same);
    r := if ok then Done else Failed;
  }

  // -------------------------------------------------------------------------
  // What a copy does to the item

  /** Byte d of the destination is the source's byte at the same distance if it is written, and
      what it was if not. */
  lemma ItemCopied(q: Request, s: Source, bases: seq<nat>, before: seq<seq<Byte>>, after: seq<seq<Byte>>, d: nat)
    requires Valid(q) && WellFormed(s) && |bases| == |before| == |after| == q.k
    requires forall sv :: 0 <= sv < q.k ==> ServerDone(q, sv, bases[sv], s, before[sv], after[sv])
    requires Server(d, q.I, q.k) < q.k
    requires bases[Server(d, q.I, q.k)] + Local(d, q.I, q.k) < |before[Server(d, q.I, q.k)]|
    ensures var sv, y := Server(d, q.I, q.k), bases[Server(d, q.I, q.k)] + Local(d, q.I, q.k);
      y < |after[sv]| &&
      after[sv][y] ==
        if Written(d, q.destStart, q.size, q.I) then SrcByte(s, q.srcStart + (d - q.destStart)) else before[sv][y]
  {
    var sv := Server(d, q.I, q.k);
    var y := bases[sv] + Local(d, q.I, q.k);
    LayoutRoundTrip(d, q.I, q.k);
    assert ServerDone(q, sv, bases[sv], s, before[sv], after[sv]);
    assert IsWritten(q, sv, bases[sv], y) <==> Written(d, q.destStart, q.size, q.I);
  }

  lemma BlockBegins(b: nat, end: nat, I: nat)
    requires I > 0
    ensures b * I < end <==> b < Blocks(end, I)
  {
    BlocksCover(end, I);
    if b < Blocks(end, I) {
      MulMono(b + 1, Blocks(end, I), I);
      NextTimes(b, I);
    } else {
      MulMono(Blocks(end, I), b, I);
    }
  }

  lemma InBlocks(d: nat, m: nat, I: nat)
    requires I > 0
    ensures d < m * I <==> d / I < m
  {
    BelowMultiple(d / I, d % I, m, I);
    BlockStart(d, I);
  }

  lemma LaterBlock(b: nat, d: nat, I: nat)
    requires I > 0 && b > d / I
    ensures b * I > d
  {
    InBlocks(d, b, I);
  }

  lemma DivMono(a: nat, b: nat, I: nat)
    requires I > 0 && a <= b
    ensures a / I <= b / I
  {
    if b / I < a / I { LaterBlock(a / I, b, I); BlockStart(a, I); }
  }

  /** A copy writes from its start to the end of the last block it reaches. */
  lemma WrittenUpTo(d: nat, destStart: nat, size: nat, I: nat)
    requires I > 0
    ensures Written(d, destStart, size, I) <==> size > 0 && destStart <= d < Blocks(destStart + size, I) * I
  {
    var b, end := d / I, destStart + size;
    InBlocks(d, Blocks(end, I), I);
    BlockBegins(b, end, I);
    if destStart <= d { BlockAfter(d, destStart, I); }
  }

  /** The block of a byte that is not before `start` begins after it, unless it is the block of `start`. */
  lemma BlockAfter(d: nat, start: nat, I: nat)
    requires I > 0 && start <= d
    ensures if d / I == start / I then d / I * I <= start else d / I * I > start
  {
    if d / I == start / I {
      BlockStart(start, I);
    } else {
      DivMono(start, d, I);
      LaterBlock(d / I, start, I);
    }
  }

  /** It writes exactly the bytes asked for if and only if it is empty or ends on a block boundary. */
  lemma WritesExactlyIff(destStart: nat, size: nat, I: nat)
    requires I > 0
    ensures (forall d: nat :: Written(d, destStart, size, I) <==> destStart <= d < destStart + size) <==>
            (size == 0 || (destStart + size) % I == 0)
  {
    var end := destStart + size;
    forall d: nat ensures Written(d, destStart, size, I) <==> size > 0 && destStart <= d < Blocks(end, I) * I {
      WrittenUpTo(d, destStart, size, I);
    }
    BlocksCover(end, I);
    if end % I == 0 {
      assert Blocks(end, I) * I == end by { BlockStart(end, I); }
    } else if size > 0 {
      assert Blocks(end, I) * I != end by {
        if Blocks(end, I) * I == end { DivModOf(Blocks(end, I), 0, I); }
      }
      assert Written(end, destStart, size, I);
    }
  }

  /** An instance: copying 10 bytes to the start of an item with blocks of 128 also writes byte 50. */
  lemma ShortCopyWritesWholeBlock()
    ensures Written(50, 0, 10, 128)
  {
  }

  /** Copies inside the item write inside what was allocated for it. */
  lemma WritesInAllocation(d: nat, destStart: nat, size: nat, n: nat, I: nat, k: nat)
    requires Interleaved(n, I) && k > 0 && destStart + size <= n && Written(d, destStart, size, I)
    ensures Server(d, I, k) < k
    ensures Local(d, I, k) < RawSize(n, I, k, Server(d, I, k)) <= ServerSize(n, I, k, Server(d, I, k))
  {
    WrittenUpTo(d, destStart, size, I);
    BlocksMono(destStart + size, n, I);
    MulMono(Blocks(destStart + size, I), Blocks(n, I), I);
    LayoutRoundTrip(d, I, k);
    RawSizeExact(n, I, k, Server(d, I, k), Local(d, I, k));
  }

  // -------------------------------------------------------------------------
  // Items off the block boundaries of the heap

  lemma ModSum(a: nat, b: nat, I: nat)
    requires I > 0
    ensures (a + b) % I == if a % I + b % I < I then a % I + b % I else a % I + b % I - I
  {
    var q, m := a / I + b / I, a % I + b % I;
    StrideSplit(a, I);
    StrideSplit(b, I);
    StrideAdd(a / I, b / I, I);
    assert a + b == Stride(q, I) + m;
    if m < I { StrideDivMod(q, m, I); } else { StrideDivMod(q + 1, m - I, I); }
  }

  lemma {:induction false} StrideSteps(r: nat, a: nat, b: nat)
    ensures Stride(r, a + b) == Stride(r, a) + Stride(r, b)
  {
    if r > 0 { StrideSteps(r - 1, a, b); }
  }

  lemma StrideInjective(q: nat, r: nat, step: nat)
    requires step > 0
    ensures Stride(q, step) == Stride(r, step) <==> q == r
  {
    if q < r { StrideMono(q + 1, r, step); } else if r < q { StrideMono(r + 1, q, step); }
  }

  /** What the other servers' blocks add to a distance of r rows. */
  function Skip(q: Request): nat
    requires Valid(q)
  {
    (q.k - 1) * q.I
  }

  lemma SkipIs(q: Request, r: nat)
    requires Valid(q)
    ensures Skip(q) > 0 && Stride(r, q.k * q.I) == Stride(r, q.I) + Stride(r, Skip(q))
  {
    NextTimes(q.k - 1, q.I);
    MulMono(1, q.k - 1, q.I);
    StrideSteps(r, q.I, Skip(q));
  }

  /** The displacement the server takes, and the one in the item. */
  function Taken(q: Request, c: Call, base: nat): nat
    requires Valid(q)
  {
    (base + c.local) % q.I
  }

  function Right(q: Request, c: Call): nat
    requires Valid(q)
  {
    c.local % q.I
  }

  /** Position a lies in row r of rows of I. */
  predicate InRow(a: nat, r: nat, I: nat) { Stride(r, I) <= a < Stride(r, I) + I }

  lemma HasRow(a: nat, I: nat) returns (r: nat)
    requires I > 0
    ensures InRow(a, r, I)
  {
    r := a / I;
    StrideSplit(a, I);
  }

  lemma RowsAscend(a: nat, x: nat, b: nat, y: nat, I: nat)
    requires InRow(a, x, I) && InRow(b, y, I) && a <= b
    ensures x <= y
  {
    if y < x { StrideMono(y + 1, x, I); }
  }

  /** The logical byte z positions on from a call's first. */
  lemma ByteAhead(q: Request, c: Call, i: nat, z: nat, r: nat)
    requires Valid(q) && IsCall(q, c, i) && InRow(Right(q, c) + z, r, q.I)
    ensures Logical(c.idx, c.local + z, q.I, q.k) == FirstByte(q.destStart, q.I, i) + z + Stride(r, Skip(q))
  {
    var row, b, d0, o0 := CallStart(q, c, i);
    FirstByteNotBefore(q.destStart, q.I, i);
    StrideDivMod(row, o0, q.I);
    var o := o0 + z - Stride(r, q.I);
    RowsDownAt(row, r, c.idx, b, o, q.I, q.k, c.local + z);
    RowsDown(b, r, o, q.I, q.k, Logical(c.idx, c.local + z, q.I, q.k));
    SkipIs(q, r);
  }

  /** The source byte the request takes there. */
  lemma SourceAhead(q: Request, c: Call, base: nat, z: nat, x: nat)
    requires Valid(q) && InRow(Taken(q, c, base) + z, x, q.I)
    ensures var j, y := JobOf(q, c, base), base + c.local + z;
      Ahead(j, y) / q.I == x && From(j, y) == c.srcStart + z + Stride(x, Skip(q))
  {
    RoundByte(JobOf(q, c, base), x, Taken(q, c, base) + z - Stride(x, q.I), base + c.local + z);
    SkipIs(q, x);
  }

  predicate Asked(q: Request, d: nat) { q.destStart <= d < q.destStart + q.size }

  /** The byte at position l of the item on the call's server is copied, and from its own origin. */
  predicate CopiedRight(q: Request, c: Call, base: nat, l: nat)
    requires Valid(q)
  {
    var j, d := JobOf(q, c, base), Logical(c.idx, l, q.I, q.k);
    l >= c.local && Touched(j, base + l) && q.destStart <= d && From(j, base + l) == q.srcStart + (d - q.destStart)
  }

  /** An asked byte is copied right exactly if the displacement taken and the right one put it into the same round. */
  lemma AskedByteRightIff(q: Request, c: Call, i: nat, base: nat, z: nat, x: nat, r: nat)
    requires Valid(q) && IsCall(q, c, i) && Asked(q, Logical(c.idx, c.local + z, q.I, q.k))
    requires InRow(Taken(q, c, base) + z, x, q.I) && InRow(Right(q, c) + z, r, q.I)
    ensures CopiedRight(q, c, base, c.local + z) <==> x == r
  {
    var d0 := CallDistance(q, c, i);
    ByteAhead(q, c, i, z, r);
    SourceAhead(q, c, base, z, x);
    var d, f := Logical(c.idx, c.local + z, q.I, q.k), From(JobOf(q, c, base), base + c.local + z);
    SameDistanceIff(q, c, d0, z, x, r, d, f);
    if x == r { AskedIsTouched(q, c, i, base, z, r); }
  }

  lemma AskedIsTouched(q: Request, c: Call, i: nat, base: nat, z: nat, r: nat)
    requires Valid(q) && IsCall(q, c, i) && Asked(q, Logical(c.idx, c.local + z, q.I, q.k))
    requires InRow(Taken(q, c, base) + z, r, q.I) && InRow(Right(q, c) + z, r, q.I)
    ensures Touched(JobOf(q, c, base), base + c.local + z)
  {
    RoundRuns(q, c, i, base, z, r);
    SourceAhead(q, c, base, z, r);
  }

  /** The byte of round r at d and the one read in round x from f are as far on if and only if the rounds agree. */
  lemma SameDistanceIff(q: Request, c: Call, d0: nat, z: nat, x: nat, r: nat, d: nat, f: nat)
    requires Valid(q) && d0 >= q.destStart && c.srcStart == q.srcStart + (d0 - q.destStart)
    requires d == d0 + z + Stride(r, Skip(q)) && f == c.srcStart + z + Stride(x, Skip(q))
    ensures q.destStart <= d && (f == q.srcStart + (d - q.destStart) <==> x == r)
  {
    SkipsDiffer(q, x, r);
  }

  lemma SkipsDiffer(q: Request, x: nat, r: nat)
    requires Valid(q)
    ensures Stride(x, Skip(q)) == Stride(r, Skip(q)) <==> x == r
  {
    SkipIs(q, r);
    StrideInjective(x, r, Skip(q));
  }

  lemma CallDistance(q: Request, c: Call, i: nat) returns (d0: nat)
    requires Valid(q) && IsCall(q, c, i)
    ensures d0 == FirstByte(q.destStart, q.I, i) >= q.destStart && c.srcStart == q.srcStart + (d0 - q.destStart)
  {
    d0 := FirstByte(q.destStart, q.I, i);
    FirstByteNotBefore(q.destStart, q.I, i);
  }

  lemma RoundRuns(q: Request, c: Call, i: nat, base: nat, z: nat, r: nat)
    requires Valid(q) && IsCall(q, c, i) && Asked(q, Logical(c.idx, c.local + z, q.I, q.k))
    requires InRow(Taken(q, c, base) + z, r, q.I) && InRow(Right(q, c) + z, r, q.I)
    ensures Runs(JobOf(q, c, base), r)
  {
    ByteAhead(q, c, i, z, r);
    FirstByteNotBefore(q.destStart, q.I, i);
    SkipIs(q, r);
  }

  /** How far a request from an item off the boundary goes before it is wrong. */
  function FirstWrong(q: Request, c: Call, base: nat): nat
    requires Valid(q)
  {
    q.I - if Taken(q, c, base) > Right(q, c) then Taken(q, c, base) else Right(q, c)
  }

  /** The rounds of a position under two displacements: the same up to the first wrong position, and not there. */
  lemma RoundsAgree(t: nat, o: nat, z: nat, I: nat) returns (x: nat, r: nat)
    requires t < I && o < I
    ensures InRow(t + z, x, I) && InRow(o + z, r, I)
    ensures t == o || (z < I - t && z < I - o) ==> x == r
    ensures t != o && z == I - (if t > o then t else o) ==> x != r
  {
    x := HasRow(t + z, I);
    r := HasRow(o + z, I);
    if t <= o { RowsAscend(t + z, x, o + z, r, I); }
    if o <= t { RowsAscend(o + z, r, t + z, x, I); }
    if z < I - t && z < I - o {
      assert InRow(t + z, 0, I) && InRow(o + z, 0, I);
      RowsAscend(t + z, x, t + z, 0, I);
      RowsAscend(o + z, r, o + z, 0, I);
    } else if t != o && x == r {
      if x > 0 { StrideMono(1, x, I); }
    }
  }

  lemma BytesAscend(q: Request, c: Call, i: nat, z: nat, z': nat)
    requires Valid(q) && IsCall(q, c, i) && z <= z'
    ensures Logical(c.idx, c.local + z, q.I, q.k) <= Logical(c.idx, c.local + z', q.I, q.k)
    ensures q.destStart <= Logical(c.idx, c.local + z, q.I, q.k)
  {
    var d0 := CallDistance(q, c, i);
    var x := HasRow(Right(q, c) + z, q.I);
    var y := HasRow(Right(q, c) + z', q.I);
    ByteAhead(q, c, i, z, x);
    ByteAhead(q, c, i, z', y);
    RowsAscend(Right(q, c) + z, x, Right(q, c) + z', y, q.I);
    StrideMono(x, y, Skip(q));
  }

  lemma BeforeCall(q: Request, c: Call, i: nat, l: nat)
    requires Valid(q) && IsCall(q, c, i) && l < c.local
    ensures Logical(c.idx, l, q.I, q.k) < q.destStart
  {
    var row, b, d0, o0 := CallStart(q, c, i);
    var row', o := l / q.I, l % q.I;
    StrideSplit(l, q.I);
    if row' > row { StrideMono(row + 1, row', q.I); }
    EarlierPlace(q, c, i, row, b, d0, o0, row', o);
  }

  /** A server copies every byte asked of it right if and only if the item starts on a block boundary of its
      heap, or the bytes asked end before the first wrong one. */
  lemma AskedBytesRightIff(q: Request, c: Call, i: nat, base: nat)
    requires Valid(q) && IsCall(q, c, i)
    ensures (forall l: nat :: Asked(q, Logical(c.idx, l, q.I, q.k)) ==> CopiedRight(q, c, base, l)) <==>
      (base % q.I == 0 || Logical(c.idx, c.local + FirstWrong(q, c, base), q.I, q.k) >= q.destStart + q.size)
  {
    var t, o, z0 := Taken(q, c, base), Right(q, c), FirstWrong(q, c, base);
    ModSum(base, c.local, q.I);
    assert t == o <==> base % q.I == 0;
    if t == o || Logical(c.idx, c.local + z0, q.I, q.k) >= q.destStart + q.size {
      forall l: nat | Asked(q, Logical(c.idx, l, q.I, q.k)) ensures CopiedRight(q, c, base, l) {
        if l < c.local {
          BeforeCall(q, c, i, l);
        } else {
          AskedIsRight(q, c, i, base, l - c.local);
        }
      }
    } else {
      BytesAscend(q, c, i, z0, z0);
      var x, r := RoundsAgree(t, o, z0, q.I);
      AskedByteRightIff(q, c, i, base, z0, x, r);
      assert !CopiedRight(q, c, base, c.local + z0);
    }
  }

  lemma AskedIsRight(q: Request, c: Call, i: nat, base: nat, z: nat)
    requires Valid(q) && IsCall(q, c, i) && Asked(q, Logical(c.idx, c.local + z, q.I, q.k))
    requires Taken(q, c, base) == Right(q, c)
      || Logical(c.idx, c.local + FirstWrong(q, c, base), q.I, q.k) >= q.destStart + q.size
    ensures CopiedRight(q, c, base, c.local + z)
  {
    var z0 := FirstWrong(q, c, base);
    if Taken(q, c, base) != Right(q, c) && z >= z0 { BytesAscend(q, c, i, z0, z); }
    var x, r := RoundsAgree(Taken(q, c, base), Right(q, c), z, q.I);
    AskedByteRightIff(q, c, i, base, z, x, r);
  }

  /** An instance: an item of 512 bytes in blocks of 256 on 2 servers, at offset 128 on the first.  A copy of
      all of it puts source byte 384 at its byte 128, ... */
  lemma MisplacedItemMiscopies(j: Job)
    requires j == Job(128, 0, 512, 256, 2)
    ensures Touched(j, 256) && From(j, 256) == 384
  {
    assert Ahead(j, 256) == Stride(1, j.I) + 0;
    assert Runs(j, 1);
    RoundByte(j, 1, 0, 256);
    assert Stride(1, j.k * j.I) == 512;
  }

  lemma OneBlockEach()
    ensures ServerSize(512, 256, 2, 0) == 256
  {
  }

  /** ... and writes past the bytes the server has for it. */
  lemma MisplacedItemOverruns(j: Job)
    requires j == Job(128, 0, 512, 256, 2)
    ensures Touched(j, 128 + ServerSize(512, 256, 2, 0))
  {
    assert Touched(j, 384) by { RoundByte(j, 1, 128, 384); }
    OneBlockEach();
  }

  // -------------------------------------------------------------------------
  // How much of the source a copy reads

  /** Byte p of a source item of n bytes lies inside what was allocated for the item. */
  predicate SrcAllocated(p: nat, n: nat, I: nat, k: nat)
    requires k > 0 && (k > 1 ==> I > 0)
  {
    if k > 1 then Local(p, I, k) < ServerSize(n, I, k, Server(p, I, k)) else p < ServerSize(n, I, 1, 0)
  }

  /** The first byte past the allocation of server sv. */
  function Limit(n: nat, I: nat, k: nat, sv: nat): nat
    requires k > 0 && (k > 1 ==> I > 0)
  {
    if k > 1 then Logical(sv, ServerSize(n, I, k, sv), I, k) else ServerSize(n, I, 1, 0)
  }

  lemma LogicalMono(sv: nat, l: nat, l': nat, I: nat, k: nat)
    requires I > 0 && k > 0 && l <= l'
    ensures Logical(sv, l, I, k) <= Logical(sv, l', I, k)
  {
    var row, row' := l / I, l' / I;
    StrideSplit(l, I);
    StrideSplit(l', I);
    LogicalAt(sv, row, l % I, I, k);
    LogicalAt(sv, row', l' % I, I, k);
    DivMono(l, l', I);
    if row < row' {
      StrideMono(row + 1, row', k);
      StrideMono(Stride(row, k) + sv + 1, Stride(row', k) + sv, I);
    }
  }

  /** A server's bytes are allocated up to its limit and no further. */
  lemma LimitExact(p: nat, n: nat, I: nat, k: nat)
    requires k > 0 && (k > 1 ==> I > 0)
    ensures var sv := if k > 1 then Server(p, I, k) else 0;
      sv < k && (SrcAllocated(p, n, I, k) <==> p < Limit(n, I, k, sv))
  {
    if k > 1 {
      var sv, l := Server(p, I, k), Local(p, I, k);
      var size := ServerSize(n, I, k, sv);
      LayoutRoundTrip(p, I, k);
      if l < size {
        LogicalStrict(sv, l, size, I, k);
      } else {
        LogicalMono(sv, size, l, I, k);
      }
    }
  }

  lemma LogicalStrict(sv: nat, l: nat, l': nat, I: nat, k: nat)
    requires I > 0 && sv < k && l < l'
    ensures Logical(sv, l, I, k) < Logical(sv, l', I, k)
  {
    LogicalMono(sv, l, l', I, k);
    if Logical(sv, l, I, k) == Logical(sv, l', I, k) {
      LogicalRoundTrip(sv, l, I, k);
      LogicalRoundTrip(sv, l', I, k);
    }
  }

  /** The item's own bytes are allocated. */
  lemma ItemAllocated(p: nat, n: nat, I: nat, k: nat)
    requires k > 0 && (k > 1 ==> I > 0) && p < n
    ensures SrcAllocated(p, n, I, k)
  {
    if k > 1 {
      ItemFits(p, n, I, k);
      if n <= I { OneBlock(p, I, k); }
    } else {
      SingleServerSize(n, I);
    }
  }

  lemma OneBlock(p: nat, I: nat, k: nat)
    requires p < I && k > 0
    ensures Server(p, I, k) == 0 && Local(p, I, k) == p
  {
    DivModOf(0, p, I);
    DivModOf(0, 0, k);
  }

  lemma SingleServerSize(n: nat, I: nat)
    ensures n <= ServerSize(n, I, 1, 0)
  {
    if Interleaved(n, I) {
      BlocksCover(n, I);
      DivModOf(Blocks(n, I), 0, 1);
    }
  }

  /** The end of what a copy reads: as far past its start as it writes. */
  function ReadEnd(q: Request): nat
    requires Valid(q)
  {
    BlocksCover(q.destStart + q.size, q.I);
    q.srcStart + (Blocks(q.destStart + q.size, q.I) * q.I - q.destStart)
  }

  /** A copy within its source item reads inside what was allocated for that item if and only if it is empty
      or what it reads ends before every source server's limit. */
  lemma ReadsInAllocationIff(q: Request, n: nat, I: nat, k: nat)
    requires Valid(q) && k > 0 && (k > 1 ==> I > 0) && q.srcStart + q.size <= n
    ensures (forall d: nat :: Written(d, q.destStart, q.size, q.I) ==>
               SrcAllocated(q.srcStart + (d - q.destStart), n, I, k)) <==>
      (q.size == 0 || forall sv :: 0 <= sv < k ==> ReadEnd(q) <= Limit(n, I, k, sv))
  {
    if q.size == 0 {
      forall d: nat ensures !Written(d, q.destStart, q.size, q.I) { WrittenUpTo(d, q.destStart, q.size, q.I); }
    } else if forall sv :: 0 <= sv < k ==> ReadEnd(q) <= Limit(n, I, k, sv) {
      forall d: nat | Written(d, q.destStart, q.size, q.I)
        ensures SrcAllocated(q.srcStart + (d - q.destStart), n, I, k)
      {
        WrittenUpTo(d, q.destStart, q.size, q.I);
        LimitExact(q.srcStart + (d - q.destStart), n, I, k);
      }
    } else {
      var sv: nat :| sv < k && ReadEnd(q) > Limit(n, I, k, sv);
      ReadsTooFar(q, n, I, k, sv);
    }
  }

  lemma ReadsTooFar(q: Request, n: nat, I: nat, k: nat, sv: nat)
    requires Valid(q) && k > 0 && (k > 1 ==> I > 0) && q.srcStart + q.size <= n && q.size > 0
    requires sv < k && ReadEnd(q) > Limit(n, I, k, sv)
    ensures exists d: nat ::
      Written(d, q.destStart, q.size, q.I) && !SrcAllocated(q.srcStart + (d - q.destStart), n, I, k)
  {
    var p := Limit(n, I, k, sv);
    if k > 1 { LogicalRoundTrip(sv, ServerSize(n, I, k, sv), I, k); }
    assert !SrcAllocated(p, n, I, k);
    assert p >= n by { if p < n { ItemAllocated(p, n, I, k); } }
    var d := q.destStart + (p - q.srcStart);
    WrittenUpTo(d, q.destStart, q.size, q.I);
    assert Written(d, q.destStart, q.size, q.I) && q.srcStart + (d - q.destStart) == p;
  }

  /** An instance: copying an item of 10 bytes, which has 128, into blocks of 256 reads 256. */
  lemma ShortSourceIsOverread(q: Request)
    requires q == Request(0, 0, 10, 256, 2)
    ensures ReadEnd(q) == 256 && Limit(10, 256, 1, 0) == 128
  {
  }
}
