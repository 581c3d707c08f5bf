/**
 The dispatch half of a copy: one call per destination server, each with the place
 of its first byte and the matching start in the source.
 */
module CopyDispatch {
  import opened Layout

  /** A copy request to the idx-th destination server; local is relative to the item there. */
  datatype Call = Call(idx: nat, local: nat, srcStart: nat, srcEnd: nat)

  datatype Result<T> = Ok(value: T) | OutOfRange

  /** First logical destination byte of call i: the start itself, then whole blocks. */
  function FirstByte(destStart: nat, I: nat, i: nat): nat
    requires I > 0
  {
    if i == 0 then destStart else (destStart / I + i) * I
  }

  lemma FirstByteNotBefore(destStart: nat, I: nat, i: nat)
    requires I > 0
    ensures FirstByte(destStart, I, i) >= destStart
    ensures FirstByte(destStart, I, i) / I == destStart / I + i
    ensures FirstByte(destStart, I, i) % I == if i == 0 then destStart % I else 0
  {
    if i > 0 {
      var q := destStart / I;
      MulMono(q + 1, q + i, I);
      assert (q + 1) * I == q * I + I;
      DivModOf(q + i, 0, I);
    }
  }

  /** The server and row of a block, one block on. */
  lemma NextBlock(j: nat, k: nat)
    requires k > 0
    ensures (j + 1) / k == j / k + if j % k == k - 1 then 1 else 0
    ensures (j + 1) % k == if j % k == k - 1 then 0 else j % k + 1
  {
    var q, r := j / k, j % k;
    assert j == q * k + r;
    if r == k - 1 {
      assert (q + 1) * k == q * k + k;
      DivModOf(q + 1, 0, k);
    } else {
      DivModOf(q, r + 1, k);
    }
  }

  /** (i + start % k) % k walks the servers in step with the blocks. */
  lemma WalkServers(start: nat, i: nat, k: nat)
    requires k > 0
    ensures (i + start % k) % k == (start + i) % k
  {
    var q, a := start / k, i + start % k;
    DivSplit(start, k);
    DivSplit(a, k);
    TimesAdd(q, a / k, k);
    DivModOf(q + a / k, a % k, k);
  }

  /** i + r wraps back to r only at i = 0, for i below k. */
  lemma BackAtStart(i: nat, r: nat, k: nat)
    requires i < k && r < k
    ensures (i + r) % k == r <==> i == 0
  {
    if i + r < k {
      DivModOf(0, i + r, k);
    } else {
      DivModOf(1, i + r - k, k);
    }
  }

  lemma StartRow(start: nat, k: nat)
    requires k > 0
    ensures (start - start % k) / k == start / k
  {
    var q := start / k;
    assert start - start % k == q * k + 0;
    DivModOf(q, 0, k);
  }

  /** Call c serves the destination from logical byte FirstByte(i), and its source start is the
      same distance from the copy's source start. */
  predicate Aligned(c: Call, i: nat, srcStart: nat, destStart: nat, I: nat, k: nat)
    requires I > 0 && k > 0
  {
    var d := FirstByte(destStart, I, i);
    && c.idx == Server(d, I, k) && c.local == Local(d, I, k)
    && c.srcStart - srcStart == d - destStart
  }

  /** Local position of block destStart / I + i, the destFamPtr of iteration i. */
  function RowPtr(destStart: nat, i: nat, I: nat, k: nat): nat
    requires I > 0 && k > 0
  {
    var block: nat := destStart / I + i;
    var row: nat := block / k;
    row * I
  }

  /** The synchronous branch of Fam_CIS_Direct::copy. */
  method Copy(srcItemSize: nat, destItemSize: nat, srcStart: nat, destStart: nat, size: nat, I: nat, k: nat)
    returns (r: Result<seq<Call>>)
    requires k > 0 && (k > 1 ==> I > 0)
    ensures r.OutOfRange? <==> srcStart + size > srcItemSize || destStart + size > destItemSize
    ensures r.Ok? ==> |r.value| == k && forall i :: 0 <= i < k ==> r.value[i].srcEnd == srcStart + size
    ensures r.Ok? && k == 1 ==> r.value == [Call(0, destStart, srcStart, srcStart + size)]
    ensures r.Ok? && k > 1 ==> forall i :: 0 <= i < k ==> Aligned(r.value[i], i, srcStart, destStart, I, k)
  {
    if !(srcStart + size <= srcItemSize) { return OutOfRange; }
    if !(destStart + size <= destItemSize) { return OutOfRange; }
    var srcEnd := srcStart + size;
    var startIdx := if k == 1 then 0 else (destStart / I) % k;
    var famPtr := if k == 1 then destStart else (destStart / I - startIdx) / k * I;
    var displacement := if k == 1 then 0 else destStart % I;
    if k > 1 { StartRow(destStart / I, k); }
    var calls := Dispatch(srcStart, srcEnd, destStart, I, k, startIdx, famPtr, displacement);
    r := Ok(calls);
  }

  /** The loop over the destination's servers. */
  method Dispatch(srcStart: nat, srcEnd: nat, destStart: nat, I: nat, k: nat,
                  startIdx: nat, famPtr0: nat, displacement: nat) returns (calls: seq<Call>)
    requires k == 1 ==> startIdx == 0 && famPtr0 == destStart && displacement == 0
    requires k > 1 ==> I > 0 && startIdx == (destStart / I) % k && displacement == destStart % I
    requires k > 1 ==> famPtr0 == RowPtr(destStart, 0, I, k)
    requires k > 0
    ensures |calls| == k && forall i :: 0 <= i < k ==> calls[i].srcEnd == srcEnd
    ensures k == 1 ==> calls == [Call(0, destStart, srcStart, srcEnd)]
    ensures k > 1 ==> forall i :: 0 <= i < k ==> Aligned(calls[i], i, srcStart, destStart, I, k)
  {
    var src: nat, famPtr: nat := srcStart, famPtr0;
    calls := [];
    var i := 0;
    while i < k
      invariant i <= k && |calls| == i
      invariant forall n :: 0 <= n < i ==> calls[n].srcEnd == srcEnd
      invariant i == 0 ==> src == srcStart && famPtr == famPtr0
      invariant k == 1 && i == 1 ==> calls == [Call(0, destStart, srcStart, srcEnd)]
      invariant k > 1 ==> famPtr == RowPtr(destStart, i, I, k)
      invariant k > 1 ==> src - srcStart == FirstByte(destStart, I, i) - destStart
      invariant k > 1 ==> forall n :: 0 <= n < i ==> Aligned(calls[n], n, srcStart, destStart, I, k)
    {
      var index := (i + startIdx) % k;
      var additional := if index == startIdx then displacement else 0;
      calls := calls + [Call(index, famPtr + additional, src, srcEnd)];
      if k > 1 {
        DispatchStep(i, srcStart, destStart, I, k, index, additional);
        DispatchIsAligned(calls[i], i, srcStart, destStart, I, k, index, additional);
      }
      if index == k - 1 { famPtr := famPtr + I; }
      src := src + (I - additional);
      i := i + 1;
    }
  }

  lemma DispatchStep(i: nat, srcStart: nat, destStart: nat, I: nat, k: nat, index: nat, additional: nat)
    requires I > 0 && 1 < k && i < k
    requires index == (i + (destStart / I) % k) % k
    requires additional == if index == (destStart / I) % k then destStart % I else 0
    ensures additional <= I
    ensures RowPtr(destStart, i + 1, I, k) == RowPtr(destStart, i, I, k) + if index == k - 1 then I else 0
    ensures FirstByte(destStart, I, i + 1) - FirstByte(destStart, I, i) == I - additional
  {
    WalkServers(destStart / I, i, k);
    BackAtStart(i, (destStart / I) % k, k);
    SourceAdvances(destStart, I, k, i, additional);
    RowAdvances(destStart / I + i, I, k);
  }

  /** The next block is in the next row exactly if this one is on the last server. */
  lemma RowAdvances(b: nat, I: nat, k: nat)
    requires k > 0
    ensures (b + 1) / k * I == b / k * I + if b % k == k - 1 then I else 0
  {
    NextBlock(b, k);
    NextTimes(b / k, I);
  }

  lemma AlignedPlace(c: Call, d: nat, b: nat, o: nat, I: nat, k: nat)
    requires I > 0 && k > 0 && d / I == b && d % I == o
    requires c.idx == b % k && c.local == b / k * I + o
    ensures c.idx == Server(d, I, k) && c.local == Local(d, I, k)
  {
  }

  lemma DispatchIsAligned(c: Call, i: nat, srcStart: nat, destStart: nat, I: nat, k: nat, index: nat, additional: nat)
    requires I > 0 && 1 < k && i < k
    requires index == (i + (destStart / I) % k) % k
    requires additional == if index == (destStart / I) % k then destStart % I else 0
    requires c.idx == index && c.local == RowPtr(destStart, i, I, k) + additional
    requires c.srcStart - srcStart == FirstByte(destStart, I, i) - destStart
    ensures Aligned(c, i, srcStart, destStart, I, k)
  {
    FirstByteNotBefore(destStart, I, i);
    WalkServers(destStart / I, i, k);
    BackAtStart(i, (destStart / I) % k, k);
    AlignedPlace(c, FirstByte(destStart, I, i), destStart / I + i, additional, I, k);
  }

  lemma SourceAdvances(destStart: nat, I: nat, k: nat, i: nat, additional: nat)
    requires I > 0 && 1 < k && i < k
    requires additional == if i == 0 then destStart % I else 0
    ensures FirstByte(destStart, I, i + 1) - FirstByte(destStart, I, i) == I - additional
  {
    var q := destStart / I;
    assert destStart == q * I + destStart % I;
    NextTimes(q + i, I);
  }
}
