/**
 What a finished call on the heap registry has done, in every run: a destroy has deleted the heap it found and
 its pool, a create or open has mapped its heap or deleted it again.
 */
module HeapCalls {
  import opened HeapRegistry
  import opened HeapSafety
  import opened HeapTheorems
  import opened HeapLocks

  predicate Takes(s: State, a: Step, s': State) { Enabled(s, a) && s' == Do(s, a) }

  /** A run together with the step taken in each state. */
  ghost predicate IsTrace(run: seq<State>, acts: seq<Step>) {
    && |run| == |acts| + 1 && run[0] == Boot(run[0].pools)
    && forall n :: 0 <= n < |acts| ==> Takes(run[n], acts[n], run[n + 1])
  }

  lemma TraceIsRun(run: seq<State>, acts: seq<Step>)
    requires IsTrace(run, acts)
    ensures IsRun(run)
  {
    forall n | 0 <= n < |run| - 1 ensures Next(run[n], run[n + 1]) { assert Takes(run[n], acts[n], run[n + 1]); }
  }

  /** Every run is such a trace. */
  lemma {:induction false} RunHasTrace(run: seq<State>) returns (acts: seq<Step>)
    requires IsRun(run)
    ensures IsTrace(run, acts)
  {
    acts := [];
    while |acts| < |run| - 1
      invariant |acts| <= |run| - 1
      invariant forall n :: 0 <= n < |acts| ==> Takes(run[n], acts[n], run[n + 1])
    {
      var n := |acts|;
      assert Next(run[n], run[n + 1]);
      var a :| Enabled(run[n], a) && run[n + 1] == Do(run[n], a);
      acts := acts + [a];
    }
  }

  predicate ActsFor(a: Step, t: Tid) { !a.Gc? && a.t == t }

  /** Thread t makes a call that starts with step i and is back at j. */
  ghost predicate IsCall(run: seq<State>, acts: seq<Step>, t: Tid, op: Op, g: RegionId, i: nat, j: nat) {
    && IsTrace(run, acts) && i < j < |run| && acts[i] == Start(t, op, g)
    && Pc(run[i], t).Idle? && Pc(run[j], t).Idle?
    && forall m :: i < m < j ==> !Pc(run[m], t).Idle?
  }

  // -------------------------------------------------------------------------
  // The heaps that calls, records and the map know

  predicate HasHeap(p: PC) { !p.Idle? && !p.DropPool? }

  /** Every heap known anywhere exists, and the next one does not. */
  ghost predicate HeapsKnown(s: State) {
    && (forall h :: h in s.heaps ==> h < s.nextHeap)
    && (forall t :: HasHeap(Pc(s, t)) ==> Pc(s, t).h in s.heaps)
    && (forall g :: g in s.heapMap ==> s.heapMap[g] in s.heaps)
    && (forall i :: i in s.infos ==> s.infos[i].heap in s.heaps)
  }

  /** What every step leaves to the calls of other threads. */
  ghost predicate Framed(s: State, a: Step, s': State) {
    && (forall t :: !ActsFor(a, t) ==> Pc(s', t) == Pc(s, t))
    && (forall h :: h in s.heaps ==> h in s'.heaps && (s.heaps[h].deleted ==> s'.heaps[h].deleted))
    && HeapsKnown(s')
  }

  lemma GcLockFrames(s: State, pick: Option<RegionId>)
    requires HeapsKnown(s) && LockInv(s) && GcEnabled(s, pick) && (s.gc.WantInfo? || s.gc.Done?)
    ensures Framed(s, Gc(pick), StepGc(s, pick))
  {
    if s.gc.WantInfo? { assert LockListOk(s, s.gc.nextId); }
  }

  lemma GcListFrames(s: State, pick: Option<RegionId>)
    requires HeapsKnown(s) && GcEnabled(s, pick) && (s.gc.Sleep? || s.gc.WantList? || s.gc.Scan? || s.gc.HasBoth?)
    ensures Framed(s, Gc(pick), StepGc(s, pick))
  {
  }

  lemma GcUseFrames(s: State, pick: Option<RegionId>)
    requires HeapsKnown(s) && (s.gc.Check? || s.gc.Use?)
    ensures Framed(s, Gc(pick), StepGc(s, pick))
  {
  }

  lemma StartFrames(s: State, t: Tid, op: Op, g: RegionId)
    requires HeapsKnown(s) && Enabled(s, Start(t, op, g))
    ensures Framed(s, Start(t, op, g), StepStart(s, t, op, g))
  {
  }

  lemma CloseFrames(s: State, t: Tid, ok: bool)
    requires HeapsKnown(s) && Pc(s, t).DesClose?
    ensures Framed(s, Close(t, ok), StepClose(s, t, ok))
  {
  }

  lemma BareCloseFrames(s: State, t: Tid, ok: bool)
    requires HeapsKnown(s) && Pc(s, t).DesBare?
    ensures Framed(s, Close(t, ok), StepClose(s, t, ok))
  {
  }

  lemma ListFrames(s: State, t: Tid, op: Op, g: RegionId, h: HeapId)
    requires HeapsKnown(s) && Pc(s, t) == InsIn(op, g, h)
    ensures Framed(s, Go(t), StepInsert(s, t, op, g, h))
  {
  }

  lemma UnlistFrames(s: State, t: Tid)
    requires HeapsKnown(s) && LockInv(s) && Pc(s, t).DesIn?
    ensures Framed(s, Go(t), StepGo(s, t))
  {
    assert LockListOk(s, Pc(s, t).g);
  }

  lemma MapFrames(s: State, t: Tid, op: Op, g: RegionId, h: HeapId)
    requires HeapsKnown(s) && Pc(s, t) == InsMap(op, g, h)
    ensures Framed(s, Go(t), StepMap(s, t, op, g, h))
  {
  }

  lemma InsertFrames(s: State, t: Tid)
    requires HeapsKnown(s) && CanGo(s, t) && (Pc(s, t).InsWant? || Pc(s, t).InsShut? || Pc(s, t).InsDrop?)
    ensures Framed(s, Go(t), StepGo(s, t))
  {
  }

  lemma RecordFrames(s: State, t: Tid)
    requires HeapsKnown(s) && LockInv(s) && CanGo(s, t) && HasRecord(Pc(s, t))
    ensures Framed(s, Go(t), StepGo(s, t))
  {
    assert LockThread(s, t);
  }

  lemma DestroyFrames(s: State, t: Tid)
    requires HeapsKnown(s) && CanGo(s, t)
    requires Pc(s, t).DesErase? || Pc(s, t).DesWant? || Pc(s, t).DesDelHeap? || Pc(s, t).DropPool?
    ensures Framed(s, Go(t), StepGo(s, t))
  {
  }

  lemma StepFrames(s: State, a: Step)
    requires HeapsKnown(s) && LockInv(s) && Enabled(s, a)
    ensures Framed(s, a, Do(s, a))
  {
    match a
    case Gc(pick) =>
      if s.gc.WantInfo? || s.gc.Done? {
        GcLockFrames(s, pick);
      } else if s.gc.Check? || s.gc.Use? {
        GcUseFrames(s, pick);
      } else {
        GcListFrames(s, pick);
      }
    case Start(t, op, g) => StartFrames(s, t, op, g);
    case Close(t, ok) => if Pc(s, t).DesClose? { CloseFrames(s, t, ok); } else { BareCloseFrames(s, t, ok); }
    case Go(t) =>
      match Pc(s, t) {
        case InsIn(op, g, h) => ListFrames(s, t, op, g, h);
        case InsMap(op, g, h) => MapFrames(s, t, op, g, h);
        case DesIn(_, _) => UnlistFrames(s, t);
        case p =>
          if Inserts(p) {
            InsertFrames(s, t);
          } else if HasRecord(p) {
            RecordFrames(s, t);
          } else {
            DestroyFrames(s, t);
          }
      }
  }

  ghost predicate FramedAt(run: seq<State>, acts: seq<Step>, n: nat)
    requires n < |acts| && |run| == |acts| + 1
  {
    HeapsKnown(run[n]) ==> Framed(run[n], acts[n], run[n + 1])
  }

  lemma {:induction false} KnownThroughout(run: seq<State>, acts: seq<Step>, m: nat)
    requires m < |run| == |acts| + 1 && HeapsKnown(run[0]) && forall n :: 0 <= n < |acts| ==> FramedAt(run, acts, n)
    ensures HeapsKnown(run[m])
  {
    if m > 0 {
      KnownThroughout(run, acts, m - 1);
      assert FramedAt(run, acts, m - 1);
    }
  }

  lemma TraceFrames(run: seq<State>, acts: seq<Step>, m: nat)
    requires IsTrace(run, acts) && m < |run|
    ensures HeapsKnown(run[m]) && LockInv(run[m])
    ensures m < |acts| ==> Framed(run[m], acts[m], run[m + 1])
  {
    TraceIsRun(run, acts);
    RunLocks(run, m);
    forall n | 0 <= n < |acts| ensures FramedAt(run, acts, n) {
      assert Takes(run[n], acts[n], run[n + 1]);
      RunLocks(run, n);
      if HeapsKnown(run[n]) { StepFrames(run[n], acts[n]); }
    }
    KnownThroughout(run, acts, m);
    if m < |acts| { assert FramedAt(run, acts, m); }
  }

  predicate Dead(s: State, h: HeapId) { h in s.heaps && s.heaps[h].deleted }

  ghost predicate WasMapped(run: seq<State>, i: nat, m: nat, g: RegionId)
    requires m < |run|
  {
    exists n :: i < n <= m && g in run[n].heapMap
  }

  ghost predicate WasUnmapped(run: seq<State>, i: nat, m: nat, g: RegionId)
    requires m < |run|
  {
    exists n :: i < n <= m && g !in run[n].heapMap
  }

  ghost predicate WasListed(run: seq<State>, i: nat, m: nat, g: RegionId)
    requires m < |run|
  {
    exists n :: i < n <= m && g in run[n].list
  }

  ghost predicate WasUnlisted(run: seq<State>, i: nat, m: nat, g: RegionId)
    requires m < |run|
  {
    exists n :: i < n <= m && g !in run[n].list
  }

  lemma WasNext(run: seq<State>, i: nat, m: nat, g: RegionId)
    requires i < m && m + 1 < |run|
    ensures WasMapped(run, i, m + 1, g) <==> WasMapped(run, i, m, g) || g in run[m + 1].heapMap
    ensures WasUnmapped(run, i, m + 1, g) <==> WasUnmapped(run, i, m, g) || g !in run[m + 1].heapMap
    ensures WasListed(run, i, m + 1, g) <==> WasListed(run, i, m, g) || g in run[m + 1].list
    ensures WasUnlisted(run, i, m + 1, g) <==> WasUnlisted(run, i, m, g) || g !in run[m + 1].list
  {
  }

  // -------------------------------------------------------------------------
  // Destroys

  /** A close of this call failed. */
  ghost predicate CloseFailed(acts: seq<Step>, i: nat, m: nat, t: Tid) {
    exists n :: i < n < m && n < |acts| && acts[n] == Close(t, false)
  }

  /** A destroy of g that found heap h in the map, or none. */
  predicate Destroying(s: State, p: PC, g: RegionId, found: Option<HeapId>, failed: bool) {
    match p
    case DesErase(x, h) => x == g && found == Some(h) && !failed
    case DesWant(x, h) => x == g && found == Some(h) && !failed
    case DesIn(x, h) => x == g && found == Some(h) && !failed
    case DesBare(x, h) => x == g && found == Some(h) && !failed
    case DesWantInfo(x, h, _) => x == g && found == Some(h) && !failed
    case DesClose(x, h, _) => x == g && found == Some(h) && !failed
    case DesUnlock(x, h, _, ok) => x == g && found == Some(h) && failed == !ok
    case DesDelInfo(x, h, _, ok) => x == g && found == Some(h) && failed == !ok
    case DesDelHeap(x, h) => x == g && found == Some(h) && !failed
    case DropPool(op, x) => x == g && op.Destroy? && !failed && (found.Some? ==> Dead(s, found.value))
    case Idle => if failed then found.Some? else g !in s.pools && (found.Some? ==> Dead(s, found.value))
    case _ => false
  }

  /** It takes its region out of the map, then out of the list. */
  predicate Unmapping(p: PC) { p.DesErase? }

  predicate Unlisting(p: PC) { p.DesErase? || p.DesWant? || p.DesIn? }

  lemma EraseGoes(s: State, t: Tid, g: RegionId, found: Option<HeapId>)
    requires CanGo(s, t) && Destroying(s, Pc(s, t), g, found, false) && (Pc(s, t).DesErase? || Pc(s, t).DesWant?)
    ensures var s' := StepGo(s, t);
      && Destroying(s', Pc(s', t), g, found, false) && Unlisting(Pc(s', t)) && !Unmapping(Pc(s', t))
      && (Unmapping(Pc(s, t)) ==> g !in s'.heapMap)
  {
  }

  lemma UnlistGoes(s: State, t: Tid, g: RegionId, found: Option<HeapId>)
    requires Destroying(s, Pc(s, t), g, found, false) && Pc(s, t).DesIn?
    ensures var s' := StepGo(s, t);
      Destroying(s', Pc(s', t), g, found, false) && !Unlisting(Pc(s', t)) && g !in s'.list
  {
  }

  lemma RecordGoes(s: State, t: Tid, g: RegionId, found: Option<HeapId>, failed: bool)
    requires CanGo(s, t) && Destroying(s, Pc(s, t), g, found, failed) && HasRecord(Pc(s, t))
    ensures var s' := StepGo(s, t); Destroying(s', Pc(s', t), g, found, failed) && !Unlisting(Pc(s', t))
  {
  }

  lemma DeleteGoes(s: State, t: Tid, g: RegionId, found: Option<HeapId>)
    requires CanGo(s, t) && Destroying(s, Pc(s, t), g, found, false) && (Pc(s, t).DesDelHeap? || Pc(s, t).DropPool?)
    ensures var s' := StepGo(s, t); Destroying(s', Pc(s', t), g, found, false) && !Unlisting(Pc(s', t))
  {
  }

  lemma CloseGoes(s: State, t: Tid, g: RegionId, found: Option<HeapId>, ok: bool)
    requires Enabled(s, Close(t, ok)) && Destroying(s, Pc(s, t), g, found, false)
    ensures var s' := StepClose(s, t, ok); Destroying(s', Pc(s', t), g, found, !ok) && !Unlisting(Pc(s', t))
  {
  }

  /** How far the destroy has come. */
  ghost predicate DestroyAt(run: seq<State>, acts: seq<Step>, i: nat, m: nat, t: Tid, g: RegionId,
                            found: Option<HeapId>)
    requires i < m < |run|
  {
    var p := Pc(run[m], t);
    && Destroying(run[m], p, g, found, CloseFailed(acts, i, m, t))
    && (found.Some? && !Unmapping(p) ==> WasUnmapped(run, i, m, g))
    && (found.Some? && !Unlisting(p) ==> WasUnlisted(run, i, m, g))
  }

  function Found(s: State, g: RegionId): Option<HeapId> { if g in s.heapMap then Some(s.heapMap[g]) else None }

  lemma DestroyBegins(run: seq<State>, acts: seq<Step>, i: nat, t: Tid, g: RegionId)
    requires IsTrace(run, acts) && i < |acts| && acts[i] == Start(t, Destroy, g)
    ensures DestroyAt(run, acts, i, i + 1, t, g, Found(run[i], g))
  {
    assert Takes(run[i], acts[i], run[i + 1]);
  }

  lemma FailedNext(acts: seq<Step>, i: nat, m: nat, t: Tid)
    requires i < m < |acts|
    ensures CloseFailed(acts, i, m + 1, t) <==> CloseFailed(acts, i, m, t) || acts[m] == Close(t, false)
  {
  }

  lemma DestroyMoves(s: State, a: Step, t: Tid, g: RegionId, found: Option<HeapId>, failed: bool)
    requires Enabled(s, a) && ActsFor(a, t) && Destroying(s, Pc(s, t), g, found, failed) && !Pc(s, t).Idle?
    ensures var s', p' := Do(s, a), Pc(Do(s, a), t);
      && Destroying(s', p', g, found, failed || a == Close(t, false))
      && (Unmapping(Pc(s, t)) ==> g !in s'.heapMap) && !Unmapping(p')
      && (Unlisting(Pc(s, t)) && !Unlisting(p') ==> g !in s'.list)
      && (Unlisting(p') ==> Unlisting(Pc(s, t)))
  {
    if a.Close? {
      CloseGoes(s, t, g, found, a.ok);
    } else if Pc(s, t).DesIn? {
      UnlistGoes(s, t, g, found);
    } else if Unlisting(Pc(s, t)) {
      EraseGoes(s, t, g, found);
    } else if HasRecord(Pc(s, t)) {
      RecordGoes(s, t, g, found, failed);
    } else {
      DeleteGoes(s, t, g, found);
    }
  }

  lemma DestroyGoesOn(run: seq<State>, acts: seq<Step>, i: nat, m: nat, t: Tid, g: RegionId, found: Option<HeapId>)
    requires IsTrace(run, acts) && i < m < |acts| && DestroyAt(run, acts, i, m, t, g, found) && !Pc(run[m], t).Idle?
    ensures DestroyAt(run, acts, i, m + 1, t, g, found)
  {
    assert Takes(run[m], acts[m], run[m + 1]);
    FailedNext(acts, i, m, t);
    WasNext(run, i, m, g);
    if ActsFor(acts[m], t) {
      DestroyMoves(run[m], acts[m], t, g, found, CloseFailed(acts, i, m, t));
    } else {
      TraceFrames(run, acts, m);
    }
  }

  ghost predicate DestroyKept(run: seq<State>, acts: seq<Step>, i: nat, m: nat, t: Tid, g: RegionId,
                              found: Option<HeapId>)
    requires i < m && m + 1 < |run|
  {
    DestroyAt(run, acts, i, m, t, g, found) ==> DestroyAt(run, acts, i, m + 1, t, g, found)
  }

  lemma {:induction false} DestroyThroughout(run: seq<State>, acts: seq<Step>, t: Tid, g: RegionId,
                                             found: Option<HeapId>, i: nat, m: nat)
    requires i < m < |run| && DestroyAt(run, acts, i, i + 1, t, g, found)
    requires forall n :: i < n < m ==> DestroyKept(run, acts, i, n, t, g, found)
    ensures DestroyAt(run, acts, i, m, t, g, found)
  {
    if m > i + 1 {
      DestroyThroughout(run, acts, t, g, found, i, m - 1);
      assert DestroyKept(run, acts, i, m - 1, t, g, found);
    }
  }

  /** No pool and no heap is deleted. */
  ghost predicate DeletesNone(s: State, s': State) { s'.pools == s.pools && forall h :: Dead(s', h) ==> Dead(s, h) }

  lemma EraseDeletesNone(s: State, t: Tid)
    requires HeapsKnown(s) && CanGo(s, t) && (Pc(s, t).DesErase? || Pc(s, t).DesWant?)
    ensures DeletesNone(s, StepGo(s, t))
  {
    assert HasHeap(Pc(s, t));
  }

  lemma UnlistDeletesNone(s: State, t: Tid)
    requires HeapsKnown(s) && LockInv(s) && Pc(s, t).DesIn?
    ensures DeletesNone(s, StepGo(s, t))
  {
    assert LockListOk(s, Pc(s, t).g);
  }

  lemma CloseDeletesNone(s: State, t: Tid, ok: bool)
    requires HeapsKnown(s) && Enabled(s, Close(t, ok))
    ensures DeletesNone(s, StepClose(s, t, ok))
  {
    assert HasHeap(Pc(s, t));
  }

  lemma RecordDeletesNone(s: State, t: Tid)
    requires CanGo(s, t) && HasRecord(Pc(s, t))
    ensures DeletesNone(s, StepGo(s, t))
  {
  }

  /** The destroy has begun to delete. */
  predicate Deleting(p: PC, failed: bool) { p.DropPool? || (p.Idle? && !failed) }

  lemma UntilItDeletes(s: State, a: Step, t: Tid, g: RegionId, found: Option<HeapId>, failed: bool)
    requires HeapsKnown(s) && LockInv(s) && Enabled(s, a) && ActsFor(a, t)
    requires Destroying(s, Pc(s, t), g, found, failed) && !Pc(s, t).Idle?
    requires !Deleting(Pc(Do(s, a), t), failed || a == Close(t, false))
    ensures DeletesNone(s, Do(s, a)) && !Deleting(Pc(s, t), failed)
  {
    if a.Close? {
      CloseDeletesNone(s, t, a.ok);
    } else if Pc(s, t).DesIn? {
      UnlistDeletesNone(s, t);
    } else if Unlisting(Pc(s, t)) {
      EraseDeletesNone(s, t);
    } else if HasRecord(Pc(s, t)) {
      RecordDeletesNone(s, t);
    } else {
      DeleteGoes(s, t, g, found);
    }
  }

  /** None of thread t's steps from i up to m deletes anything. */
  ghost predicate KeepsHeaps(run: seq<State>, acts: seq<Step>, i: nat, m: nat, t: Tid)
    requires m < |run| == |acts| + 1
  {
    forall n :: i <= n < m && ActsFor(acts[n], t) ==> DeletesNone(run[n], run[n + 1])
  }

  ghost predicate NoneDeletedAt(run: seq<State>, acts: seq<Step>, i: nat, m: nat, t: Tid)
    requires m < |run| == |acts| + 1
  {
    Deleting(Pc(run[m], t), CloseFailed(acts, i, m, t)) || KeepsHeaps(run, acts, i, m, t)
  }

  lemma NoneDeletedStep(run: seq<State>, acts: seq<Step>, i: nat, m: nat, t: Tid, g: RegionId, found: Option<HeapId>)
    requires IsTrace(run, acts) && i < m < |acts| && DestroyAt(run, acts, i, m, t, g, found) && !Pc(run[m], t).Idle?
    requires !Deleting(Pc(run[m + 1], t), CloseFailed(acts, i, m + 1, t))
    ensures !Deleting(Pc(run[m], t), CloseFailed(acts, i, m, t))
    ensures ActsFor(acts[m], t) ==> DeletesNone(run[m], run[m + 1])
  {
    TraceFrames(run, acts, m);
    FailedNext(acts, i, m, t);
    if ActsFor(acts[m], t) {
      assert Takes(run[m], acts[m], run[m + 1]);
      UntilItDeletes(run[m], acts[m], t, g, found, CloseFailed(acts, i, m, t));
    }
  }

  lemma NoneDeletedGoesOn(run: seq<State>, acts: seq<Step>, i: nat, m: nat, t: Tid, g: RegionId, found: Option<HeapId>)
    requires IsTrace(run, acts) && i < m < |acts| && DestroyAt(run, acts, i, m, t, g, found) && !Pc(run[m], t).Idle?
    requires NoneDeletedAt(run, acts, i, m, t)
    ensures NoneDeletedAt(run, acts, i, m + 1, t)
  {
    if !Deleting(Pc(run[m + 1], t), CloseFailed(acts, i, m + 1, t)) {
      NoneDeletedStep(run, acts, i, m, t, g, found);
    }
  }

  ghost predicate NoneDeletedKept(run: seq<State>, acts: seq<Step>, i: nat, m: nat, t: Tid)
    requires m + 1 < |run| == |acts| + 1
  {
    NoneDeletedAt(run, acts, i, m, t) ==> NoneDeletedAt(run, acts, i, m + 1, t)
  }

  lemma {:induction false} NoneDeletedThroughout(run: seq<State>, acts: seq<Step>, t: Tid, i: nat, m: nat)
    requires i < m < |run| == |acts| + 1 && NoneDeletedAt(run, acts, i, i + 1, t)
    requires forall n :: i < n < m ==> NoneDeletedKept(run, acts, i, n, t)
    ensures NoneDeletedAt(run, acts, i, m, t)
  {
    if m > i + 1 {
      NoneDeletedThroughout(run, acts, t, i, m - 1);
      assert NoneDeletedKept(run, acts, i, m - 1, t);
    }
  }

  lemma DestroyReaches(run: seq<State>, acts: seq<Step>, t: Tid, g: RegionId, i: nat, j: nat, m: nat)
    requires IsCall(run, acts, t, Destroy, g, i, j) && i < m <= j
    ensures DestroyAt(run, acts, i, m, t, g, Found(run[i], g))
  {
    var found := Found(run[i], g);
    DestroyBegins(run, acts, i, t, g);
    forall n | i < n < m ensures DestroyKept(run, acts, i, n, t, g, found) {
      if DestroyAt(run, acts, i, n, t, g, found) { DestroyGoesOn(run, acts, i, n, t, g, found); }
    }
    DestroyThroughout(run, acts, t, g, found, i, m);
  }

  lemma StartDeletesNone(run: seq<State>, acts: seq<Step>, i: nat, t: Tid, g: RegionId)
    requires IsTrace(run, acts) && i < |acts| && acts[i] == Start(t, Destroy, g)
    ensures NoneDeletedAt(run, acts, i, i + 1, t)
  {
    assert Takes(run[i], acts[i], run[i + 1]);
  }

  /** In every run, a destroy of g that has returned has taken the heap it found in the map out of the map and out of
      the list.  If its close did not fail, that heap is deleted and the pool destroyed, else it has deleted nothing. */
  lemma FinishedDestroy(run: seq<State>, acts: seq<Step>, t: Tid, g: RegionId, i: nat, j: nat)
    requires IsCall(run, acts, t, Destroy, g, i, j)
    ensures g in run[i].heapMap ==> WasUnmapped(run, i, j, g) && WasUnlisted(run, i, j, g)
    ensures if CloseFailed(acts, i, j, t) then g in run[i].heapMap && KeepsHeaps(run, acts, i, j, t)
            else g !in run[j].pools && (g in run[i].heapMap ==> Dead(run[j], run[i].heapMap[g]))
  {
    var found := Found(run[i], g);
    DestroyReaches(run, acts, t, g, i, j, j);
    StartDeletesNone(run, acts, i, t, g);
    forall m | i < m < j ensures NoneDeletedKept(run, acts, i, m, t) {
      DestroyReaches(run, acts, t, g, i, j, m);
      if NoneDeletedAt(run, acts, i, m, t) { NoneDeletedGoesOn(run, acts, i, m, t, g, found); }
    }
    NoneDeletedThroughout(run, acts, t, i, j);
  }

  // -------------------------------------------------------------------------
  // Creates and opens

  /** A create or open of g that brings heap h. */
  predicate Inserting(s: State, p: PC, op: Op, g: RegionId, h: HeapId) {
    match p
    case InsWant(o, x, y) => o == op && x == g && y == h
    case InsIn(o, x, y) => o == op && x == g && y == h
    case InsMap(o, x, y) => o == op && x == g && y == h
    case InsShut(x, y) => op.Open? && x == g && y == h
    case InsDrop(o, x, y) => o == op && x == g && y == h
    case DropPool(o, x) => o == op && op.Create? && x == g && Dead(s, h)
    case _ => false
  }

  predicate Mapped(s: State, g: RegionId, h: HeapId) { g in s.heapMap && s.heapMap[g] == h }

  /** The heap is deleted again, and the pool of a create, too. */
  predicate Undone(s: State, op: Op, g: RegionId, h: HeapId) { Dead(s, h) && (op.Create? ==> g !in s.pools) }

  /** It has not come to the list, or not to the map, yet. */
  predicate BeforeList(p: PC) { p.InsWant? || p.InsIn? }

  predicate BeforeMap(p: PC) { BeforeList(p) || p.InsMap? }

  /** A step of a create or open from p to p'. */
  predicate InsertMove(s': State, p: PC, p': PC, op: Op, g: RegionId, h: HeapId) {
    && (Inserting(s', p', op, g, h) || (p'.Idle? && (Mapped(s', g, h) || (!BeforeMap(p) && Undone(s', op, g, h)))))
    && (BeforeList(p) && !BeforeList(p') ==> g in s'.list)
    && (BeforeMap(p) && !BeforeMap(p') ==> g in s'.heapMap)
    && (BeforeList(p') ==> BeforeList(p)) && (BeforeMap(p') ==> BeforeMap(p))
  }

  lemma ListMoves(s: State, t: Tid, op: Op, g: RegionId, h: HeapId)
    requires CanGo(s, t) && Inserting(s, Pc(s, t), op, g, h) && BeforeList(Pc(s, t))
    ensures InsertMove(StepGo(s, t), Pc(s, t), Pc(StepGo(s, t), t), op, g, h)
  {
  }

  lemma MapMoves(s: State, t: Tid, op: Op, g: RegionId, h: HeapId)
    requires Pc(s, t) == InsMap(op, g, h) && !op.Destroy?
    ensures InsertMove(StepMap(s, t, op, g, h), Pc(s, t), Pc(StepMap(s, t, op, g, h), t), op, g, h)
  {
  }

  lemma DropMoves(s: State, t: Tid, op: Op, g: RegionId, h: HeapId)
    requires CanGo(s, t) && !op.Destroy? && Inserting(s, Pc(s, t), op, g, h) && !BeforeMap(Pc(s, t))
    ensures InsertMove(StepGo(s, t), Pc(s, t), Pc(StepGo(s, t), t), op, g, h)
  {
  }

  lemma InsertMoves(s: State, t: Tid, op: Op, g: RegionId, h: HeapId)
    requires CanGo(s, t) && !op.Destroy? && Inserting(s, Pc(s, t), op, g, h)
    ensures InsertMove(StepGo(s, t), Pc(s, t), Pc(StepGo(s, t), t), op, g, h)
  {
    if Pc(s, t).InsMap? {
      MapMoves(s, t, op, g, h);
    } else if BeforeList(Pc(s, t)) {
      ListMoves(s, t, op, g, h);
    } else {
      DropMoves(s, t, op, g, h);
    }
  }

  /** How far the create or open has come. */
  ghost predicate InsertAt(run: seq<State>, i: nat, m: nat, t: Tid, op: Op, g: RegionId, h: HeapId)
    requires i < m < |run|
  {
    var p := Pc(run[m], t);
    && (!BeforeList(p) ==> WasListed(run, i, m, g))
    && (!BeforeMap(p) ==> WasMapped(run, i, m, g))
    && if p.Idle? then Mapped(run[m], g, h) || Undone(run[m], op, g, h) else Inserting(run[m], p, op, g, h)
  }

  lemma InsertBegins(run: seq<State>, acts: seq<Step>, i: nat, t: Tid, op: Op, g: RegionId)
    requires IsTrace(run, acts) && i < |acts| && acts[i] == Start(t, op, g) && !op.Destroy?
    ensures InsertAt(run, i, i + 1, t, op, g, run[i].nextHeap)
  {
    assert Takes(run[i], acts[i], run[i + 1]);
  }

  lemma InsertGoesOn(run: seq<State>, acts: seq<Step>, i: nat, m: nat, t: Tid, op: Op, g: RegionId, h: HeapId)
    requires IsTrace(run, acts) && i < m < |acts| && InsertAt(run, i, m, t, op, g, h) && !Pc(run[m], t).Idle?
    requires !op.Destroy?
    ensures InsertAt(run, i, m + 1, t, op, g, h)
  {
    assert Takes(run[m], acts[m], run[m + 1]);
    WasNext(run, i, m, g);
    if ActsFor(acts[m], t) {
      InsertMoves(run[m], t, op, g, h);
    } else {
      TraceFrames(run, acts, m);
    }
  }

  ghost predicate InsertKept(run: seq<State>, i: nat, m: nat, t: Tid, op: Op, g: RegionId, h: HeapId)
    requires i < m && m + 1 < |run|
  {
    InsertAt(run, i, m, t, op, g, h) ==> InsertAt(run, i, m + 1, t, op, g, h)
  }

  lemma {:induction false} InsertThroughout(run: seq<State>, t: Tid, op: Op, g: RegionId, h: HeapId, i: nat, m: nat)
    requires i < m < |run| && InsertAt(run, i, i + 1, t, op, g, h)
    requires forall n :: i < n < m ==> InsertKept(run, i, n, t, op, g, h)
    ensures InsertAt(run, i, m, t, op, g, h)
  {
    if m > i + 1 {
      InsertThroughout(run, t, op, g, h, i, m - 1);
      assert InsertKept(run, i, m - 1, t, op, g, h);
    }
  }

  /** In every run, a create or open of g that has returned brought a new heap, and g was listed in some state since.
      The map has the new heap, or the heap is deleted again, and the pool of a create with it, because the map had
      one for g. */
  lemma FinishedInsert(run: seq<State>, acts: seq<Step>, t: Tid, op: Op, g: RegionId, i: nat, j: nat)
    requires IsCall(run, acts, t, op, g, i, j) && !op.Destroy?
    ensures var h := run[i].nextHeap;
      && h !in run[i].heaps && WasListed(run, i, j, g) && WasMapped(run, i, j, g)
      && (Mapped(run[j], g, h) || Undone(run[j], op, g, h))
  {
    var h := run[i].nextHeap;
    InsertBegins(run, acts, i, t, op, g);
    TraceFrames(run, acts, i);
    forall m | i < m < j ensures InsertKept(run, i, m, t, op, g, h) {
      if InsertAt(run, i, m, t, op, g, h) { InsertGoesOn(run, acts, i, m, t, op, g, h); }
    }
    InsertThroughout(run, t, op, g, h, i, j);
  }
}
