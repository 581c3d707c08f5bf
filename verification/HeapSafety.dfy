/**
 The inductive invariant of the heap registry and its preservation by every step.
 */
module HeapSafety {
  import opened HeapRegistry

  predicate GcReadsList(p: GcPc) { p.Scan? || p.WantInfo? || p.HasBoth? }

  predicate GcReadsInfo(p: GcPc, i: InfoId) {
    match p
    case HasBoth(_, j) => i == j
    case Check(_, j) => i == j
    case Use(_, j) => i == j
    case Done(_, j) => i == j
    case _ => false
  }

  predicate WritesInfo(p: PC, i: InfoId) {
    match p
    case DesClose(_, _, j) => i == j
    case DesUnlock(_, _, j, _) => i == j
    case _ => false
  }

  /** A destroyer that has unlisted record i and not deleted it yet. */
  predicate Frees(p: PC, i: InfoId) {
    match p
    case DesWantInfo(_, _, j) => i == j
    case DesDelInfo(_, _, j, _) => i == j
    case _ => WritesInfo(p, i)
  }

  /** The delayed-free thread has, or may come by, the record of heap h. */
  predicate GcReaches(s: State, h: HeapId) {
    match HeapAt(s, h).stage
    case NoRecord => false
    case Listed(_) => true
    case Unlisted(i) => GcReadsInfo(s.gc, i)
  }

  predicate IsListed(s: State, g: RegionId, i: InfoId) { g in s.list && s.list[g] == i }

  /** A listed record is live and valid, unlocked for writing, and its heap is open. */
  predicate ListOk(s: State, g: RegionId) {
    g in s.list ==>
      var x := InfoAt(s, s.list[g]);
      && s.list[g] in s.infos && x.region == g && x.isValid && !x.deleted && x.lock.writer.None?
      && x.heap in s.heaps && s.heaps[x.heap].isOpen && !s.heaps[x.heap].deleted
  }

  predicate InfoOk(s: State, i: InfoId) {
    i in s.infos ==>
      var x := s.infos[i];
      && i < s.nextInfo && x.heap in s.heaps && s.heaps[x.heap].region == x.region
      && s.heaps[x.heap].stage == (if IsListed(s, x.region, i) then Listed(i) else Unlisted(i))
      && (x.lock.gc <==> GcReadsInfo(s.gc, i))
      && (x.lock.gc ==> x.lock.writer.None? && !x.deleted && s.heaps[x.heap].isOpen && !s.heaps[x.heap].deleted)
      && (x.lock.writer.Some? ==> WritesInfo(Pc(s, x.lock.writer.value), i))
      && (!x.deleted && !IsListed(s, x.region, i) ==>
            x.region in s.destroying && Frees(Pc(s, s.destroying[x.region]), i))
  }

  predicate HeapOk(s: State, h: HeapId) {
    h in s.heaps ==>
      && h < s.nextHeap
      && (s.heaps[h].stage.NoRecord? || (s.heaps[h].stage.i in s.infos && s.infos[s.heaps[h].stage.i].heap == h))
  }

  predicate Held(s: State, g: RegionId, h: HeapId, holder: Holder, isOpen: bool) {
    h in s.heaps && s.heaps[h] == Heap(g, isOpen, false, s.heaps[h].stage, holder)
  }

  predicate MapOk(s: State, g: RegionId) { g in s.heapMap ==> Held(s, g, s.heapMap[g], InMap, true) }

  predicate Destroys(s: State, t: Tid, g: RegionId) { g in s.destroying && s.destroying[g] == t }

  /** Every record of heap h is deleted, but for record i. */
  predicate Detached(s: State, h: HeapId, i: Option<InfoId>) {
    match HeapAt(s, h).stage
    case NoRecord => true
    case Listed(_) => false
    case Unlisted(j) => i == Some(j) || (j in s.infos && s.infos[j].deleted)
  }

  /** The destroyer's record is unlisted and its own. */
  predicate OwnsInfo(s: State, g: RegionId, i: InfoId) {
    i in s.infos && s.infos[i].region == g && !s.infos[i].deleted && !IsListed(s, g, i)
  }

  predicate Frozen(s: State, t: Tid, g: RegionId, h: HeapId, i: InfoId, isOpen: bool) {
    Destroys(s, t, g) && Held(s, g, h, ByDestroyer(t), isOpen) && Detached(s, h, Some(i)) && OwnsInfo(s, g, i)
  }

  predicate PcOk(s: State, t: Tid, p: PC) {
    match p
    case Idle => true
    case InsWant(_, g, h) => Held(s, g, h, ByInserter(t), true) && s.heaps[h].stage.NoRecord?
    case InsIn(_, g, h) =>
      Held(s, g, h, ByInserter(t), true) && s.heaps[h].stage.NoRecord? && s.listLock == RwLock(false, Some(t))
    case InsMap(_, g, h) => Held(s, g, h, ByInserter(t), true)
    case InsShut(g, h) => Held(s, g, h, ByInserter(t), true)
    case InsDrop(op, g, h) => Held(s, g, h, ByInserter(t), !op.Open?)
    case DesErase(g, h) => Destroys(s, t, g) && g in s.heapMap && s.heapMap[g] == h
    case DesWant(g, h) => Destroys(s, t, g) && Held(s, g, h, ByDestroyer(t), true)
    case DesIn(g, h) =>
      Destroys(s, t, g) && Held(s, g, h, ByDestroyer(t), true) && s.listLock == RwLock(false, Some(t))
    case DesBare(g, h) => Destroys(s, t, g) && Held(s, g, h, ByDestroyer(t), true) && Detached(s, h, None)
    case DesWantInfo(g, h, i) => Frozen(s, t, g, h, i, true) && s.infos[i].lock.writer.None?
    case DesClose(g, h, i) => Frozen(s, t, g, h, i, true) && s.infos[i].lock == RwLock(false, Some(t))
    case DesUnlock(g, h, i, ok) => Frozen(s, t, g, h, i, !ok) && s.infos[i].lock == RwLock(false, Some(t))
    case DesDelInfo(g, h, i, ok) => Frozen(s, t, g, h, i, !ok) && s.infos[i].lock == FREE
    case DesDelHeap(g, h) => Destroys(s, t, g) && Held(s, g, h, ByDestroyer(t), false) && Detached(s, h, None)
    case DropPool(op, g) => op.Destroy? ==> Destroys(s, t, g)
  }

  predicate ThreadOk(s: State, t: Tid) { PcOk(s, t, Pc(s, t)) }

  predicate LockOk(s: State) {
    && (s.listLock.gc <==> GcReadsList(s.gc))
    && (s.listLock.gc ==> s.listLock.writer.None?)
    && (s.listLock.writer.Some? ==> var p := Pc(s, s.listLock.writer.value); p.InsIn? || p.DesIn?)
  }

  /** The record the delayed-free thread works on. */
  predicate GcOk(s: State) {
    match s.gc
    case WantInfo(n, i) => IsListed(s, n, i)
    case HasBoth(n, i) => IsListed(s, n, i)
    case Check(_, i) => i in s.infos
    case Use(_, i) => i in s.infos
    case Done(_, i) => i in s.infos
    case _ => true
  }

  ghost predicate Inv(s: State) {
    && (forall g :: ListOk(s, g))
    && (forall i :: InfoOk(s, i))
    && (forall h :: HeapOk(s, h))
    && (forall g :: MapOk(s, g))
    && (forall t :: ThreadOk(s, t))
    && LockOk(s) && GcOk(s)
  }

  /** What the code leaves to its callers: a heap that could not be mapped is not closed or deleted while the
      delayed-free thread can reach it. */
  predicate Allowed(s: State, a: Step) {
    a.Go? && (Pc(s, a.t).InsShut? || Pc(s, a.t).InsDrop?) ==> !GcReaches(s, Pc(s, a.t).h)
  }

  lemma BootInv(pools: set<RegionId>)
    ensures Inv(Boot(pools))
  {
  }

  // -------------------------------------------------------------------------
  // Steps of the delayed-free thread

  /** s' differs from s at most in the delayed-free thread's own state and in the list lock. */
  predicate GcMoves(s: State, s': State) {
    && s' == s.(gc := s'.gc, visited := s'.visited, stay := s'.stay, listLock := s'.listLock)
    && (s'.listLock == s.listLock || (s.listLock.writer.None? && s'.listLock.writer.None?))
  }

  lemma GcMoveThread(s: State, s': State, t: Tid)
    requires GcMoves(s, s') && ThreadOk(s, t)
    ensures ThreadOk(s', t)
  {
  }

  lemma GcMoveFrame(s: State, s': State)
    requires Inv(s) && GcMoves(s, s')
    requires forall i :: GcReadsInfo(s'.gc, i) <==> GcReadsInfo(s.gc, i)
    requires LockOk(s') && GcOk(s')
    ensures Inv(s')
  {
    forall g ensures ListOk(s', g) { assert ListOk(s, g); }
    forall i ensures InfoOk(s', i) { assert InfoOk(s, i); }
    forall h ensures HeapOk(s', h) { assert HeapOk(s, h); }
    forall g ensures MapOk(s', g) { assert MapOk(s, g); }
    forall t ensures ThreadOk(s', t) { GcMoveThread(s, s', t); }
  }

  /** s' differs from s in the delayed-free thread's state and in its hold on record i. */
  predicate GcLocks(s: State, s': State, i: InfoId, l: bool) {
    && i in s.infos && s.infos[i].lock.writer.None?
    && s' == LockInfo(s, i, RwLock(l, None)).(gc := s'.gc)
  }

  predicate HasRecord(p: PC) { p.DesWantInfo? || p.DesClose? || p.DesUnlock? || p.DesDelInfo? }

  lemma GcLockFreer(s: State, s': State, i: InfoId, l: bool, t: Tid)
    requires GcLocks(s, s', i, l) && ThreadOk(s, t) && HasRecord(Pc(s, t))
    requires s.infos[i].lock.gc || IsListed(s, s.infos[i].region, i)
    ensures ThreadOk(s', t)
  {
  }

  lemma GcLockOther(s: State, s': State, i: InfoId, l: bool, t: Tid)
    requires GcLocks(s, s', i, l) && ThreadOk(s, t) && !HasRecord(Pc(s, t))
    ensures ThreadOk(s', t)
  {
  }

  lemma GcLockFrame(s: State, s': State, i: InfoId, l: bool)
    requires Inv(s) && GcLocks(s, s', i, l)
    requires s.infos[i].lock.gc || IsListed(s, s.infos[i].region, i)
    requires forall j :: GcReadsInfo(s'.gc, j) <==> if j == i then l else GcReadsInfo(s.gc, j)
    requires l ==> !s.infos[i].deleted && HeapAt(s, s.infos[i].heap).isOpen && !HeapAt(s, s.infos[i].heap).deleted
    requires LockOk(s') && GcOk(s')
    ensures Inv(s')
  {
    forall g ensures ListOk(s', g) { assert ListOk(s, g); }
    forall j ensures InfoOk(s', j) { assert InfoOk(s, j); }
    forall h ensures HeapOk(s', h) { assert HeapOk(s, h); }
    forall g ensures MapOk(s', g) { assert MapOk(s, g); }
    forall t ensures ThreadOk(s', t) {
      if HasRecord(Pc(s, t)) { GcLockFreer(s, s', i, l, t); } else { GcLockOther(s, s', i, l, t); }
    }
  }

  lemma KeepsGcLock(s: State, pick: Option<RegionId>)
    requires Inv(s) && (s.gc.WantInfo? || s.gc.Done?) && GcEnabled(s, pick)
    ensures Inv(StepGc(s, pick))
  {
    if s.gc.WantInfo? {
      assert ListOk(s, s.gc.nextId) && InfoOk(s, s.gc.i);
      GcLockFrame(s, StepGc(s, pick), s.gc.i, true);
    } else {
      assert InfoOk(s, s.gc.i);
      GcLockFrame(s, StepGc(s, pick), s.gc.i, false);
    }
  }

  lemma KeepsGcList(s: State, pick: Option<RegionId>)
    requires Inv(s) && (s.gc.Sleep? || s.gc.WantList? || s.gc.Scan? || s.gc.HasBoth?) && GcEnabled(s, pick)
    ensures Inv(StepGc(s, pick))
  {
    if s.gc.HasBoth? { assert ListOk(s, s.gc.nextId); }
    GcMoveFrame(s, StepGc(s, pick));
  }

  lemma KeepsGcUse(s: State, pick: Option<RegionId>)
    requires Inv(s) && (s.gc.Check? || s.gc.Use?)
    ensures Inv(StepGc(s, pick))
  {
    GcMoveFrame(s, StepGc(s, pick));
  }

  lemma KeepsGc(s: State, pick: Option<RegionId>)
    requires Inv(s) && GcEnabled(s, pick)
    ensures Inv(StepGc(s, pick))
  {
    match s.gc
    case Sleep => KeepsGcList(s, pick);
    case WantList(_) => KeepsGcList(s, pick);
    case Scan(_) => KeepsGcList(s, pick);
    case WantInfo(_, _) => KeepsGcLock(s, pick);
    case HasBoth(_, _) => KeepsGcList(s, pick);
    case Check(_, _) => KeepsGcUse(s, pick);
    case Use(_, _) => KeepsGcUse(s, pick);
    case Done(_, _) => KeepsGcLock(s, pick);
  }

  // -------------------------------------------------------------------------
  // Steps that change no record and no heap but the thread's own

  /** Regions that other threads destroy stay theirs. */
  predicate KeepsDestroyers(s: State, s': State, t: Tid) {
    forall g :: g in s.destroying && s.destroying[g] != t ==> g in s'.destroying && s'.destroying[g] == s.destroying[g]
  }

  /** Thread t has, or waits for, no record and holds no list lock it keeps. */
  predicate Moves(s: State, s': State, t: Tid) {
    && s'.pcs == s.pcs[t := Pc(s', t)] && KeepsDestroyers(s, s', t)
    && s'.gc == s.gc && s'.list == s.list && s'.infos == s.infos && s'.nextInfo == s.nextInfo
    && (s'.listLock == s.listLock || s.listLock in {FREE, RwLock(false, Some(t))})
  }

  /** ... and it may have changed heap h, which nobody else holds and the delayed-free thread does not reach. */
  predicate ChangesHeap(s: State, s': State, t: Tid, h: HeapId) {
    && s'.nextHeap == s.nextHeap
    && (|| s'.heaps == s.heaps
        || (&& h in s.heaps && h in s'.heaps && s'.heaps == s.heaps[h := s'.heaps[h]]
            && s'.heaps[h].region == s.heaps[h].region && s'.heaps[h].stage == s.heaps[h].stage
            && s.heaps[h].holder in {ByInserter(t), ByDestroyer(t), InMap}
            && (GcReaches(s, h) ==>
                  s'.heaps[h].isOpen == s.heaps[h].isOpen && s'.heaps[h].deleted == s.heaps[h].deleted)))
  }

  predicate Inserts(p: PC) { p.InsWant? || p.InsIn? || p.InsMap? || p.InsShut? || p.InsDrop? }

  lemma MoveInserter(s: State, s': State, t: Tid, h: HeapId, u: Tid)
    requires Moves(s, s', t) && ChangesHeap(s, s', t, h) && ThreadOk(s, u) && u != t && Inserts(Pc(s, u))
    ensures ThreadOk(s', u)
  {
    assert s'.heaps != s.heaps ==> Pc(s, u).h != h;
  }

  lemma MoveFreer(s: State, s': State, t: Tid, h: HeapId, u: Tid)
    requires Moves(s, s', t) && ChangesHeap(s, s', t, h) && ThreadOk(s, u) && u != t && HasRecord(Pc(s, u))
    ensures ThreadOk(s', u)
  {
    assert s'.heaps != s.heaps ==> Pc(s, u).h != h;
  }

  lemma MoveDestroyer(s: State, s': State, t: Tid, h: HeapId, u: Tid)
    requires Moves(s, s', t) && ChangesHeap(s, s', t, h) && ThreadOk(s, u) && u != t
    requires !Inserts(Pc(s, u)) && !HasRecord(Pc(s, u))
    requires Pc(s, u).DesErase? ==> Pc(s, u).g in s'.heapMap && s'.heapMap[Pc(s, u).g] == Pc(s, u).h
    ensures ThreadOk(s', u)
  {
  }

  lemma MoveOther(s: State, s': State, t: Tid, h: HeapId, u: Tid)
    requires Moves(s, s', t) && ChangesHeap(s, s', t, h) && ThreadOk(s, u) && u != t
    requires Pc(s, u).DesErase? ==> Pc(s, u).g in s'.heapMap && s'.heapMap[Pc(s, u).g] == Pc(s, u).h
    ensures ThreadOk(s', u)
  {
    if Inserts(Pc(s, u)) {
      MoveInserter(s, s', t, h, u);
    } else if HasRecord(Pc(s, u)) {
      MoveFreer(s, s', t, h, u);
    } else {
      MoveDestroyer(s, s', t, h, u);
    }
  }

  /** Thread t works on no record, or on the same one before and after. */
  ghost predicate KeepsRecord(s: State, s': State, t: Tid) {
    || (forall i :: !Frees(Pc(s, t), i))
    || (&& s'.destroying == s.destroying
        && forall i ::
             (Frees(Pc(s, t), i) ==> Frees(Pc(s', t), i)) && (WritesInfo(Pc(s, t), i) ==> WritesInfo(Pc(s', t), i)))
  }

  lemma MoveInfo(s: State, s': State, t: Tid, h: HeapId, i: InfoId)
    requires Moves(s, s', t) && ChangesHeap(s, s', t, h) && KeepsRecord(s, s', t) && InfoOk(s, i)
    ensures InfoOk(s', i)
  {
  }

  lemma MoveList(s: State, s': State, t: Tid, h: HeapId, g: RegionId)
    requires Moves(s, s', t) && ChangesHeap(s, s', t, h) && ListOk(s, g) && (g in s.list ==> InfoOk(s, s.list[g]))
    ensures ListOk(s', g)
  {
  }

  lemma MoveFrame(s: State, s': State, t: Tid, h: HeapId)
    requires Inv(s) && Moves(s, s', t) && ChangesHeap(s, s', t, h) && KeepsRecord(s, s', t)
    requires ThreadOk(s', t) && LockOk(s') && forall g :: MapOk(s', g)
    requires forall u :: u != t && Pc(s, u).DesErase? ==>
      Pc(s, u).g in s'.heapMap && s'.heapMap[Pc(s, u).g] == Pc(s, u).h
    ensures Inv(s')
  {
    forall g ensures ListOk(s', g) { if g in s.list { assert InfoOk(s, s.list[g]); } MoveList(s, s', t, h, g); }
    forall i ensures InfoOk(s', i) { MoveInfo(s, s', t, h, i); }
    forall x ensures HeapOk(s', x) { assert HeapOk(s, x); }
    forall u ensures ThreadOk(s', u) { if u != t { MoveOther(s, s', t, h, u); } }
  }

  /** Steps that leave the heaps and the map alone. */
  lemma PlainMove(s: State, s': State, t: Tid)
    requires Inv(s) && Moves(s, s', t) && KeepsRecord(s, s', t)
    requires s'.heaps == s.heaps && s'.nextHeap == s.nextHeap && s'.heapMap == s.heapMap
    requires ThreadOk(s', t) && LockOk(s')
    ensures Inv(s')
  {
    forall g ensures MapOk(s', g) { assert MapOk(s, g); }
    forall u | u != t && Pc(s, u).DesErase? ensures Pc(s, u).g in s'.heapMap && s'.heapMap[Pc(s, u).g] == Pc(s, u).h {
      assert ThreadOk(s, u);
    }
    MoveFrame(s, s', t, 0);
  }

  lemma KeepsStartDestroy(s: State, t: Tid, g: RegionId)
    requires Inv(s) && Enabled(s, Start(t, Destroy, g))
    ensures Inv(StepStart(s, t, Destroy, g))
  {
    PlainMove(s, StepStart(s, t, Destroy, g), t);
  }

  /** Taking the list's write lock. */
  lemma KeepsWant(s: State, t: Tid)
    requires Inv(s) && (Pc(s, t).InsWant? || Pc(s, t).DesWant?) && s.listLock == FREE
    ensures Inv(StepGo(s, t))
  {
    assert ThreadOk(s, t);
    PlainMove(s, StepGo(s, t), t);
  }

  lemma KeepsLostRecord(s: State, t: Tid, op: Op, g: RegionId, h: HeapId)
    requires Inv(s) && Pc(s, t) == InsIn(op, g, h) && g in s.list
    ensures Inv(StepInsert(s, t, op, g, h))
  {
    assert ThreadOk(s, t);
    PlainMove(s, StepInsert(s, t, op, g, h), t);
  }

  lemma KeepsConflict(s: State, t: Tid, op: Op, g: RegionId, h: HeapId)
    requires Inv(s) && Pc(s, t) == InsMap(op, g, h) && g in s.heapMap
    ensures Inv(StepMap(s, t, op, g, h))
  {
    assert ThreadOk(s, t);
    PlainMove(s, StepMap(s, t, op, g, h), t);
  }

  /** No record is listed, so an earlier destroy has deleted the heap's record. */
  lemma KeepsBare(s: State, t: Tid, g: RegionId, h: HeapId)
    requires Inv(s) && Pc(s, t) == DesIn(g, h) && g !in s.list
    ensures Inv(StepGo(s, t))
  {
    assert ThreadOk(s, t) && HeapOk(s, h);
    if !s.heaps[h].stage.NoRecord? { assert InfoOk(s, s.heaps[h].stage.i); }
    PlainMove(s, StepGo(s, t), t);
  }

  lemma KeepsDropPool(s: State, t: Tid, op: Op, g: RegionId)
    requires Inv(s) && Pc(s, t) == DropPool(op, g)
    ensures Inv(StepDropPool(s, t, op, g))
  {
    assert ThreadOk(s, t);
    PlainMove(s, StepDropPool(s, t, op, g), t);
  }

  lemma ErasersFind(s: State, s': State, t: Tid, g: RegionId, u: Tid)
    requires ThreadOk(s, u) && u != t && (s'.heapMap == s.heapMap - {g} ==> Destroys(s, t, g))
    requires s'.heapMap in {s.heapMap, s.heapMap - {g}} || (g !in s.heapMap && s'.heapMap - {g} == s.heapMap)
    ensures Pc(s, u).DesErase? ==> Pc(s, u).g in s'.heapMap && s'.heapMap[Pc(s, u).g] == Pc(s, u).h
  {
    if Pc(s, u).DesErase? && Pc(s, u).g != g { assert Pc(s, u).g in s.heapMap - {g} || s'.heapMap == s.heapMap; }
  }

  lemma KeepsMap(s: State, t: Tid, op: Op, g: RegionId, h: HeapId)
    requires Inv(s) && Pc(s, t) == InsMap(op, g, h) && g !in s.heapMap
    ensures Inv(StepMap(s, t, op, g, h))
  {
    var s' := StepMap(s, t, op, g, h);
    assert ThreadOk(s, t);
    assert s'.heapMap - {g} == s.heapMap;
    forall r ensures MapOk(s', r) { assert MapOk(s, r); }
    forall u | u != t ensures Pc(s, u).DesErase? ==> Pc(s, u).g in s'.heapMap && s'.heapMap[Pc(s, u).g] == Pc(s, u).h {
      ErasersFind(s, s', t, g, u);
    }
    MoveFrame(s, s', t, h);
  }

  lemma KeepsErase(s: State, t: Tid, g: RegionId, h: HeapId)
    requires Inv(s) && Pc(s, t) == DesErase(g, h)
    ensures Inv(StepErase(s, t, g, h))
  {
    var s' := StepErase(s, t, g, h);
    assert ThreadOk(s, t) && MapOk(s, g);
    forall r ensures MapOk(s', r) { assert MapOk(s, r); }
    forall u | u != t ensures Pc(s, u).DesErase? ==> Pc(s, u).g in s'.heapMap && s'.heapMap[Pc(s, u).g] == Pc(s, u).h {
      ErasersFind(s, s', t, g, u);
    }
    MoveFrame(s, s', t, h);
  }

  /** Steps that change only a heap the thread holds. */
  lemma OwnHeap(s: State, s': State, t: Tid, h: HeapId)
    requires Inv(s) && Moves(s, s', t) && ChangesHeap(s, s', t, h) && KeepsRecord(s, s', t)
    requires h in s.heaps && s.heaps[h].holder != InMap && s'.heapMap == s.heapMap
    requires ThreadOk(s', t) && LockOk(s')
    ensures Inv(s')
  {
    forall r ensures MapOk(s', r) { assert MapOk(s, r); }
    forall u | u != t ensures Pc(s, u).DesErase? ==> Pc(s, u).g in s'.heapMap && s'.heapMap[Pc(s, u).g] == Pc(s, u).h {
      assert ThreadOk(s, u);
    }
    MoveFrame(s, s', t, h);
  }

  lemma KeepsShut(s: State, t: Tid, g: RegionId, h: HeapId)
    requires Inv(s) && Pc(s, t) == InsShut(g, h) && !GcReaches(s, h)
    ensures Inv(StepShut(s, t, g, h))
  {
    assert ThreadOk(s, t);
    OwnHeap(s, StepShut(s, t, g, h), t, h);
  }

  lemma KeepsDrop(s: State, t: Tid, op: Op, g: RegionId, h: HeapId)
    requires Inv(s) && Pc(s, t) == InsDrop(op, g, h) && !GcReaches(s, h)
    ensures Inv(StepDrop(s, t, op, g, h))
  {
    assert ThreadOk(s, t);
    OwnHeap(s, StepDrop(s, t, op, g, h), t, h);
  }

  /** The delayed-free thread does not reach a heap whose destroyer has locked or deleted its record. */
  lemma DetachedUnreached(s: State, h: HeapId, i: Option<InfoId>)
    requires Inv(s) && Detached(s, h, i) && h in s.heaps
    requires i.Some? ==> i.value in s.infos && s.infos[i.value].lock.writer.Some?
    ensures !GcReaches(s, h)
  {
    assert HeapOk(s, h);
    if !s.heaps[h].stage.NoRecord? { assert InfoOk(s, s.heaps[h].stage.i); }
  }

  lemma KeepsClose(s: State, t: Tid, ok: bool)
    requires Inv(s) && Pc(s, t).DesClose?
    ensures Inv(StepClose(s, t, ok))
  {
    assert ThreadOk(s, t);
    DetachedUnreached(s, Pc(s, t).h, Some(Pc(s, t).i));
    OwnHeap(s, StepClose(s, t, ok), t, Pc(s, t).h);
  }

  lemma KeepsCloseBare(s: State, t: Tid, ok: bool)
    requires Inv(s) && Pc(s, t).DesBare?
    ensures Inv(StepClose(s, t, ok))
  {
    assert ThreadOk(s, t);
    DetachedUnreached(s, Pc(s, t).h, None);
    OwnHeap(s, StepClose(s, t, ok), t, Pc(s, t).h);
  }

  lemma KeepsDelHeap(s: State, t: Tid, g: RegionId, h: HeapId)
    requires Inv(s) && Pc(s, t) == DesDelHeap(g, h)
    ensures Inv(StepDelHeap(s, t, g, h))
  {
    assert ThreadOk(s, t);
    DetachedUnreached(s, h, None);
    OwnHeap(s, StepDelHeap(s, t, g, h), t, h);
  }

  /** A new heap nobody else knows. */
  lemma StartInsertOther(s: State, t: Tid, op: Op, g: RegionId, u: Tid)
    requires Enabled(s, Start(t, op, g)) && !op.Destroy? && ThreadOk(s, u) && u != t && s.nextHeap !in s.heaps
    ensures ThreadOk(StepStart(s, t, op, g), u)
  {
  }

  lemma KeepsStartInsert(s: State, t: Tid, op: Op, g: RegionId)
    requires Inv(s) && Enabled(s, Start(t, op, g)) && !op.Destroy?
    ensures Inv(StepStart(s, t, op, g))
  {
    var s' := StepStart(s, t, op, g);
    assert HeapOk(s, s.nextHeap);
    forall h ensures ListOk(s', h) { assert ListOk(s, h); }
    forall j ensures InfoOk(s', j) { assert InfoOk(s, j); }
    forall h ensures HeapOk(s', h) { assert HeapOk(s, h); }
    forall h ensures MapOk(s', h) { assert MapOk(s, h); }
    forall u ensures ThreadOk(s', u) { assert ThreadOk(s, u); if u != t { StartInsertOther(s, t, op, g, u); } }
  }

  // -------------------------------------------------------------------------
  // Steps on records

  /** s' differs from s in thread t and in the lock of record i, or in that i is deleted. */
  predicate ChangesRecord(s: State, s': State, t: Tid, g: RegionId, i: InfoId) {
    && Destroys(s, t, g) && OwnsInfo(s, g, i) && i in s'.infos
    && s'.infos[i] == s.infos[i].(lock := s'.infos[i].lock, deleted := s'.infos[i].deleted)
    && s' == s.(infos := s.infos[i := s'.infos[i]], pcs := s.pcs[t := Pc(s', t)], destroying := s'.destroying)
    && KeepsDestroyers(s, s', t)
  }

  lemma RecordFreer(s: State, s': State, t: Tid, g: RegionId, i: InfoId, u: Tid)
    requires ChangesRecord(s, s', t, g, i) && ThreadOk(s, u) && u != t && HasRecord(Pc(s, u))
    ensures ThreadOk(s', u)
  {
    assert Pc(s, u).i != i;
  }

  lemma RecordOther(s: State, s': State, t: Tid, g: RegionId, i: InfoId, u: Tid)
    requires ChangesRecord(s, s', t, g, i) && ThreadOk(s, u) && u != t
    ensures ThreadOk(s', u)
  {
    if HasRecord(Pc(s, u)) { RecordFreer(s, s', t, g, i, u); }
  }

  lemma RecordInfo(s: State, s': State, t: Tid, g: RegionId, i: InfoId, j: InfoId)
    requires ChangesRecord(s, s', t, g, i) && InfoOk(s, j) && j != i
    requires (forall x :: Frees(Pc(s, t), x) || WritesInfo(Pc(s, t), x) ==> x == i)
    requires s'.destroying != s.destroying ==> s'.destroying == s.destroying - {g}
    requires j in s.infos && s.infos[j].region == g && !s.infos[j].deleted ==> IsListed(s, g, j)
    ensures InfoOk(s', j)
  {
  }

  lemma RecordFrame(s: State, s': State, t: Tid, g: RegionId, i: InfoId)
    requires Inv(s) && ChangesRecord(s, s', t, g, i) && Frees(Pc(s, t), i)
    requires (forall x :: Frees(Pc(s, t), x) || WritesInfo(Pc(s, t), x) ==> x == i)
    requires s'.destroying != s.destroying ==> s'.destroying == s.destroying - {g}
    requires ThreadOk(s', t) && InfoOk(s', i) && LockOk(s')
    ensures Inv(s')
  {
    forall r ensures ListOk(s', r) { assert ListOk(s, r); }
    forall j ensures InfoOk(s', j) { assert InfoOk(s, j); if j != i { RecordInfo(s, s', t, g, i, j); } }
    forall x ensures HeapOk(s', x) { assert HeapOk(s, x); }
    forall r ensures MapOk(s', r) { assert MapOk(s, r); }
    forall u ensures ThreadOk(s', u) { if u != t { RecordOther(s, s', t, g, i, u); } }
  }

  lemma KeepsLockInfo(s: State, t: Tid)
    requires Inv(s) && CanGo(s, t) && Pc(s, t).DesWantInfo?
    ensures Inv(StepGo(s, t))
  {
    assert ThreadOk(s, t) && InfoOk(s, Pc(s, t).i);
    RecordFrame(s, StepGo(s, t), t, Pc(s, t).g, Pc(s, t).i);
  }

  lemma KeepsUnlockInfo(s: State, t: Tid)
    requires Inv(s) && CanGo(s, t) && Pc(s, t).DesUnlock?
    ensures Inv(StepGo(s, t))
  {
    assert ThreadOk(s, t) && InfoOk(s, Pc(s, t).i);
    RecordFrame(s, StepGo(s, t), t, Pc(s, t).g, Pc(s, t).i);
  }

  lemma KeepsDelInfo(s: State, t: Tid, g: RegionId, h: HeapId, i: InfoId, ok: bool)
    requires Inv(s) && Pc(s, t) == DesDelInfo(g, h, i, ok)
    ensures Inv(StepDelInfo(s, t, g, h, i, ok))
  {
    assert ThreadOk(s, t) && InfoOk(s, i);
    RecordFrame(s, StepDelInfo(s, t, g, h, i, ok), t, g, i);
  }

  lemma AddOther(s: State, t: Tid, op: Op, g: RegionId, h: HeapId, u: Tid)
    requires Pc(s, t) == InsIn(op, g, h) && ThreadOk(s, t) && ThreadOk(s, u) && u != t
    requires s.nextInfo !in s.infos && g !in s.list
    ensures ThreadOk(StepInsert(s, t, op, g, h), u)
  {
  }

  lemma KeepsAddRecord(s: State, t: Tid, op: Op, g: RegionId, h: HeapId)
    requires Inv(s) && Pc(s, t) == InsIn(op, g, h) && g !in s.list
    ensures Inv(StepInsert(s, t, op, g, h))
  {
    var s' := StepInsert(s, t, op, g, h);
    assert ThreadOk(s, t) && InfoOk(s, s.nextInfo);
    forall r ensures ListOk(s', r) { assert ListOk(s, r); }
    forall j ensures InfoOk(s', j) { assert InfoOk(s, j); }
    forall x ensures HeapOk(s', x) { assert HeapOk(s, x); }
    forall r ensures MapOk(s', r) { assert MapOk(s, r); }
    forall u ensures ThreadOk(s', u) { if u != t { AddOther(s, t, op, g, h, u); } }
  }

  /** Thread t is about to unlist record i of g; its own heap is h. */
  predicate Unlists(s: State, t: Tid, g: RegionId, h: HeapId, i: InfoId) {
    Pc(s, t) == DesIn(g, h) && IsListed(s, g, i) && ThreadOk(s, t) && ListOk(s, g) && InfoOk(s, i)
  }

  lemma RemoveFreer(s: State, t: Tid, g: RegionId, h: HeapId, i: InfoId, u: Tid)
    requires Unlists(s, t, g, h, i) && ThreadOk(s, u) && u != t && HasRecord(Pc(s, u))
    ensures ThreadOk(StepRemove(s, t, g, h), u)
  {
  }

  lemma RemoveOther(s: State, t: Tid, g: RegionId, h: HeapId, i: InfoId, u: Tid)
    requires Unlists(s, t, g, h, i) && ThreadOk(s, u) && u != t && !HasRecord(Pc(s, u))
    ensures ThreadOk(StepRemove(s, t, g, h), u)
  {
  }

  lemma RemoveSelf(s: State, t: Tid, g: RegionId, h: HeapId, i: InfoId)
    requires Unlists(s, t, g, h, i) && HeapOk(s, h)
    requires s.heaps[h].stage.Unlisted? ==> InfoOk(s, s.heaps[h].stage.i)
    requires s.heaps[h].stage.Listed? ==> InfoOk(s, s.heaps[h].stage.i)
    ensures ThreadOk(StepRemove(s, t, g, h), t)
  {
  }

  lemma RemoveInfo(s: State, t: Tid, g: RegionId, h: HeapId, i: InfoId, j: InfoId)
    requires Unlists(s, t, g, h, i) && InfoOk(s, j) && LockOk(s)
    ensures InfoOk(StepRemove(s, t, g, h), j)
  {
  }

  lemma KeepsRemove(s: State, t: Tid, g: RegionId, h: HeapId)
    requires Inv(s) && Pc(s, t) == DesIn(g, h) && g in s.list
    ensures Inv(StepRemove(s, t, g, h))
  {
    var s', i := StepRemove(s, t, g, h), s.list[g];
    assert ThreadOk(s, t) && ListOk(s, g) && InfoOk(s, i) && HeapOk(s, h);
    if !s.heaps[h].stage.NoRecord? { assert InfoOk(s, s.heaps[h].stage.i); }
    forall r ensures ListOk(s', r) { assert ListOk(s, r); }
    forall j ensures InfoOk(s', j) { RemoveInfo(s, t, g, h, i, j); }
    forall x ensures HeapOk(s', x) { assert HeapOk(s, x); }
    forall r ensures MapOk(s', r) { assert MapOk(s, r); }
    RemoveSelf(s, t, g, h, i);
    forall u ensures ThreadOk(s', u) {
      if u != t { if HasRecord(Pc(s, u)) { RemoveFreer(s, t, g, h, i, u); } else { RemoveOther(s, t, g, h, i, u); } }
    }
  }

  lemma KeepsGo(s: State, t: Tid)
    requires Inv(s) && CanGo(s, t) && Allowed(s, Go(t))
    ensures Inv(StepGo(s, t))
  {
    match Pc(s, t)
    case InsWant(_, _, _) => KeepsWant(s, t);
    case InsIn(op, g, h) => if g in s.list { KeepsLostRecord(s, t, op, g, h); } else { KeepsAddRecord(s, t, op, g, h); }
    case InsMap(op, g, h) => if g in s.heapMap { KeepsConflict(s, t, op, g, h); } else { KeepsMap(s, t, op, g, h); }
    case InsShut(g, h) => KeepsShut(s, t, g, h);
    case InsDrop(op, g, h) => KeepsDrop(s, t, op, g, h);
    case DesErase(g, h) => KeepsErase(s, t, g, h);
    case DesWant(_, _) => KeepsWant(s, t);
    case DesIn(g, h) => if g in s.list { KeepsRemove(s, t, g, h); } else { KeepsBare(s, t, g, h); }
    case DesWantInfo(_, _, _) => KeepsLockInfo(s, t);
    case DesUnlock(_, _, _, _) => KeepsUnlockInfo(s, t);
    case DesDelInfo(g, h, i, ok) => KeepsDelInfo(s, t, g, h, i, ok);
    case DesDelHeap(g, h) => KeepsDelHeap(s, t, g, h);
    case DropPool(op, g) => KeepsDropPool(s, t, op, g);
  }

  /** Every step of every thread keeps the invariant. */
  lemma StepKeepsInv(s: State, a: Step)
    requires Inv(s) && Enabled(s, a) && Allowed(s, a)
    ensures Inv(Do(s, a))
  {
    match a
    case Gc(pick) => KeepsGc(s, pick);
    case Start(t, op, g) => if op.Destroy? { KeepsStartDestroy(s, t, g); } else { KeepsStartInsert(s, t, op, g); }
    case Go(t) => KeepsGo(s, t);
    case Close(t, ok) => if Pc(s, t).DesClose? { KeepsClose(s, t, ok); } else { KeepsCloseBare(s, t, ok); }
  }
}
