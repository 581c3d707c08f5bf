/**
 Two runs in which the delayed-free thread uses a heap that is already deleted: a region is
 created while it is mapped, and a region is opened twice at the same time.
 */
module HeapRace {
  import opened HeapRegistry
  import opened HeapSafety
  import opened HeapTheorems

  /** A run from s to s'. */
  ghost predicate Leads(run: seq<State>, s: State, s': State) {
    && run != [] && run[0] == s && run[|run| - 1] == s'
    && forall i :: 0 <= i < |run| - 1 ==> Next(run[i], run[i + 1])
  }

  lemma Follow(run: seq<State>, s: State, s': State, a: Step) returns (run': seq<State>)
    requires Leads(run, s, s') && Enabled(s', a)
    ensures Leads(run', s, Do(s', a))
  {
    run' := run + [Do(s', a)];
    assert Next(s', Do(s', a));
    forall i | 0 <= i < |run'| - 1 ensures Next(run'[i], run'[i + 1]) {
      if i < |run| - 1 { assert Next(run[i], run[i + 1]); }
    }
  }

  /** Nobody holds the list, and the delayed-free thread sleeps. */
  predicate Calm(s: State) { s.listLock == FREE && s.gc.Sleep? }

  /** The list has a free and valid record for g alone, and its heap h is open. */
  predicate OnlyListed(s: State, g: RegionId, h: HeapId) {
    && s.list.Keys == {g} && s.list[g] in s.infos && s.infos[s.list[g]] == Info(g, h, true, FREE, false)
    && h in s.heaps && s.heaps[h].isOpen && !s.heaps[h].deleted
  }

  /** Between s and s' thread t has come to p. */
  predicate Reaches(s: State, s': State, t: Tid, p: PC) { s'.pcs == s.pcs[t := p] }

  // -------------------------------------------------------------------------
  // One call of each kind

  /** The new heap of a create or an open. */
  function Fresh(t: Tid, g: RegionId): Heap { Heap(g, true, false, NoRecord, ByInserter(t)) }

  /** create_region or open_heap up to the list's write lock. */
  lemma Bringing(run: seq<State>, s: State, s0: State, t: Tid, op: Op, g: RegionId, h: HeapId)
    returns (run': seq<State>, s': State)
    requires Leads(run, s, s0) && Calm(s0) && Pc(s0, t).Idle? && !op.Destroy? && CanStart(s0, op, g) && h == s0.nextHeap
    ensures Leads(run', s, s') && Reaches(s0, s', t, InsIn(op, g, h))
    ensures s' == s0.(heaps := s0.heaps[h := Fresh(t, g)], nextHeap := h + 1, pools := s0.pools + {g},
                      listLock := RwLock(false, Some(t)), pcs := s'.pcs)
  {
    run' := Follow(run, s, s0, Start(t, op, g));
    var s1 := Do(s0, Start(t, op, g));
    assert Pc(s1, t) == InsWant(op, g, h);
    run' := Follow(run', s, s1, Go(t));
    s' := Do(s1, Go(t));
  }

  /** The region gets a record. */
  lemma Listing(run: seq<State>, s: State, s0: State, t: Tid, op: Op, g: RegionId)
    returns (run': seq<State>, s': State, h: HeapId)
    requires Leads(run, s, s0) && Calm(s0) && Pc(s0, t).Idle? && !op.Destroy? && CanStart(s0, op, g) && s0.list == map[]
    ensures Leads(run', s, s') && Calm(s') && Reaches(s0, s', t, InsMap(op, g, h)) && OnlyListed(s', g, h)
    ensures s'.heapMap == s0.heapMap && s'.destroying == s0.destroying && s'.pools == s0.pools + {g}
  {
    h := s0.nextHeap;
    var s1;
    run', s1 := Bringing(run, s, s0, t, op, g, h);
    run' := Follow(run', s, s1, Go(t));
    s' := Do(s1, Go(t));
    assert s' == StepInsert(s1, t, op, g, h);
  }

  /** A listed region keeps its record; the new one is lost. */
  lemma Losing(run: seq<State>, s: State, s0: State, t: Tid, op: Op, g: RegionId)
    returns (run': seq<State>, s': State, h: HeapId)
    requires Leads(run, s, s0) && Calm(s0) && Pc(s0, t).Idle? && !op.Destroy? && CanStart(s0, op, g) && g in s0.list
    ensures Leads(run', s, s') && Reaches(s0, s', t, InsMap(op, g, h)) && h == s0.nextHeap
    ensures s' == s0.(heaps := s0.heaps[h := Fresh(t, g)], nextHeap := h + 1, pools := s0.pools + {g}, pcs := s'.pcs)
  {
    h := s0.nextHeap;
    var s1;
    run', s1 := Bringing(run, s, s0, t, op, g, h);
    run' := Follow(run', s, s1, Go(t));
    s' := Do(s1, Go(t));
    assert s' == StepInsert(s1, t, op, g, h);
  }

  /** ... and into the map, if the region is not there. */
  lemma Mapping(run: seq<State>, s: State, s0: State, t: Tid, op: Op, g: RegionId, h: HeapId)
    returns (run': seq<State>, s': State)
    requires Leads(run, s, s0) && Pc(s0, t) == InsMap(op, g, h) && g !in s0.heapMap
    ensures Leads(run', s, s') && Reaches(s0, s', t, Idle)
    ensures s' == s0.(heapMap := s0.heapMap[g := h], heaps := s'.heaps, pcs := s'.pcs)
    ensures s'.heaps == s0.heaps[h := HeapAt(s0, h).(holder := InMap)]
  {
    run' := Follow(run, s, s0, Go(t));
    s' := Do(s0, Go(t));
  }

  /** destroy_region up to the list: the region is out of the map but still listed. */
  lemma Unmapping(run: seq<State>, s: State, s0: State, u: Tid, g: RegionId)
    returns (run': seq<State>, s': State, h: HeapId)
    requires Leads(run, s, s0) && Pc(s0, u).Idle? && CanStart(s0, Destroy, g) && g in s0.heapMap
    ensures Leads(run', s, s') && Reaches(s0, s', u, DesWant(g, h))
    ensures s' == s0.(heapMap := s0.heapMap - {g}, destroying := s0.destroying[g := u],
                      heaps := s'.heaps, pcs := s'.pcs)
  {
    h := s0.heapMap[g];
    run' := Follow(run, s, s0, Start(u, Destroy, g));
    var s1 := Do(s0, Start(u, Destroy, g));
    assert Pc(s1, u) == DesErase(g, h);
    run' := Follow(run', s, s1, Go(u));
    s' := Do(s1, Go(u));
  }

  /** It unlists the region's record. */
  lemma Unlisting(run: seq<State>, s: State, s0: State, u: Tid, g: RegionId, h: HeapId)
    returns (run': seq<State>, s': State, i: InfoId)
    requires Leads(run, s, s0) && Calm(s0) && Pc(s0, u) == DesWant(g, h) && g in s0.list
    requires InfoAt(s0, s0.list[g]).lock == FREE
    ensures Leads(run', s, s') && Calm(s') && Reaches(s0, s', u, DesWantInfo(g, h, i)) && InfoAt(s', i).lock == FREE
    ensures s'.list == s0.list - {g}
    ensures s'.heapMap == s0.heapMap && s'.pools == s0.pools && s'.destroying == s0.destroying
  {
    run' := Follow(run, s, s0, Go(u));
    var s1 := Do(s0, Go(u));
    assert Pc(s1, u) == DesIn(g, h);
    i := s0.list[g];
    run' := Follow(run', s, s1, Go(u));
    s' := Do(s1, Go(u));
    assert s' == StepRemove(s1, u, g, h);
  }

  /** Closes the heap under the record's lock, and deletes the record. */
  lemma Freeing(run: seq<State>, s: State, s0: State, u: Tid, g: RegionId, h: HeapId, i: InfoId)
    returns (run': seq<State>, s': State)
    requires Leads(run, s, s0) && Pc(s0, u) == DesWantInfo(g, h, i) && InfoAt(s0, i).lock == FREE
    ensures Leads(run', s, s') && Reaches(s0, s', u, DesDelHeap(g, h))
    ensures s' == s0.(infos := s'.infos, heaps := s'.heaps, pcs := s'.pcs)
  {
    run' := Follow(run, s, s0, Go(u));
    var s1 := Do(s0, Go(u));
    assert Pc(s1, u) == DesClose(g, h, i);
    run' := Follow(run', s, s1, Close(u, true));
    var s2 := Do(s1, Close(u, true));
    assert Pc(s2, u) == DesUnlock(g, h, i, true);
    run' := Follow(run', s, s2, Go(u));
    var s3 := Do(s2, Go(u));
    assert Pc(s3, u) == DesDelInfo(g, h, i, true);
    run' := Follow(run', s, s3, Go(u));
    s' := Do(s3, Go(u));
  }

  /** Deletes the heap and the pool. */
  lemma Deleting(run: seq<State>, s: State, s0: State, u: Tid, g: RegionId, h: HeapId)
    returns (run': seq<State>, s': State)
    requires Leads(run, s, s0) && Pc(s0, u) == DesDelHeap(g, h)
    ensures Leads(run', s, s') && Reaches(s0, s', u, Idle)
    ensures s' == s0.(pools := s0.pools - {g}, destroying := s0.destroying - {g}, heaps := s'.heaps, pcs := s'.pcs)
  {
    run' := Follow(run, s, s0, Go(u));
    var s1 := Do(s0, Go(u));
    assert Pc(s1, u) == DropPool(Destroy, g);
    run' := Follow(run', s, s1, Go(u));
    s' := Do(s1, Go(u));
  }

  /** The delayed-free thread wakes up and takes the only region's record. */
  lemma Visiting(run: seq<State>, s: State, s0: State, g: RegionId, h: HeapId)
    returns (run': seq<State>, s': State)
    requires Leads(run, s, s0) && Calm(s0) && OnlyListed(s0, g, h) && 0 < g
    ensures Leads(run', s, s') && s'.gc == HasBoth(g, s0.list[g])
    ensures s'.infos == s0.infos[s0.list[g] := s0.infos[s0.list[g]].(lock := RwLock(true, None))]
    ensures s' == s0.(gc := s'.gc, infos := s'.infos, listLock := s'.listLock, visited := s'.visited, stay := s'.stay)
  {
    run' := Follow(run, s, s0, Gc(None));
    var s1 := Do(s0, Gc(None));
    run' := Follow(run', s, s1, Gc(None));
    var s2 := Do(s1, Gc(None));
    assert s2.gc == Scan(0);
    run' := Follow(run', s, s2, Gc(Some(g)));
    var s3 := Do(s2, Gc(Some(g)));
    assert s3.gc == WantInfo(g, s0.list[g]);
    run' := Follow(run', s, s3, Gc(None));
    s' := Do(s3, Gc(None));
  }

  /** The record is valid and its heap open, so it is about to use the heap. */
  lemma Using(run: seq<State>, s: State, s0: State, i: InfoId, h: HeapId, g: RegionId)
    returns (run': seq<State>, s': State)
    requires Leads(run, s, s0) && s0.gc == HasBoth(g, i) && InfoAt(s0, i).isValid && InfoAt(s0, i).heap == h
    requires h in s0.heaps && s0.heaps[h].isOpen
    ensures Leads(run', s, s') && s' == s0.(gc := Use(g, i), listLock := FREE)
  {
    run' := Follow(run, s, s0, Gc(None));
    var s1 := Do(s0, Gc(None));
    assert s1.gc == Check(g, i);
    run' := Follow(run', s, s1, Gc(None));
    s' := Do(s1, Gc(None));
  }

  /** The delayed-free thread is about to use a heap that is deleted. */
  predicate UsesDead(s: State) { s.gc.Use? && HeapAt(s, InfoAt(s, s.gc.i).heap).deleted }

  lemma Deleted(run: seq<State>, s: State, s0: State, t: Tid, g: RegionId, h: HeapId)
    returns (run': seq<State>, s': State)
    requires Leads(run, s, s0) && s0.gc.Use? && InfoAt(s0, s0.gc.i).heap == h
    requires Pc(s0, t) == InsShut(g, h) || (Pc(s0, t).InsDrop? && Pc(s0, t).h == h)
    ensures Leads(run', s, s') && UsesDead(s')
  {
    run', s' := run, s0;
    if Pc(s0, t).InsShut? {
      run' := Follow(run, s, s0, Go(t));
      s' := Do(s0, Go(t));
      assert Pc(s', t) == InsDrop(Open, g, h) && s' == StepShut(s0, t, g, h);
    }
    var s1 := s';
    run' := Follow(run', s, s1, Go(t));
    s' := Do(s1, Go(t));
    assert s' == StepDrop(s1, t, Pc(s1, t).op, Pc(s1, t).g, h);
  }

  /** A thread that could not map its listed heap deletes it under the delayed-free thread. */
  lemma Dropping(run: seq<State>, s: State, s0: State, t: Tid, op: Op, g: RegionId, h: HeapId)
    returns (run': seq<State>, s': State)
    requires Leads(run, s, s0) && Calm(s0) && OnlyListed(s0, g, h) && 0 < g
    requires Pc(s0, t) == InsMap(op, g, h) && g in s0.heapMap
    ensures Leads(run', s, s') && UsesDead(s')
  {
    var s1, s2;
    var i := s0.list[g];
    run', s1 := Visiting(run, s, s0, g, h);
    run', s2 := Using(run', s, s1, i, h, g);
    run' := Follow(run', s, s2, Go(t));
    var s3 := Do(s2, Go(t));
    assert s3 == StepMap(s2, t, op, g, h);
    run', s' := Deleted(run', s, s3, t, g, h);
  }

  // -------------------------------------------------------------------------
  // The two runs

  /** Two threads open a region of an earlier life of the server at the same time: the one whose record is listed comes
      second to the map, and deletes its heap while the delayed-free thread uses it. */
  lemma OverlappingOpensUseDead(t: Tid, u: Tid, g: RegionId) returns (run: seq<State>, s': State)
    requires t != u && 0 < g
    ensures Leads(run, Boot({g}), s') && UsesDead(s')
  {
    var s0 := Boot({g});
    var s1, s2, s3, h, k;
    run, s1, h := Listing([s0], s0, s0, t, Open, g);
    run, s2, k := Losing(run, s0, s1, u, Open, g);
    run, s3 := Mapping(run, s0, s2, u, Open, g, k);
    assert OnlyListed(s3, g, h);
    run, s' := Dropping(run, s0, s3, t, Open, g, h);
  }

  /** The region is mapped, unlisted and its pool is gone. */
  predicate Stray(s: State, g: RegionId) {
    Calm(s) && s.list == map[] && g in s.heapMap && g !in s.pools && g !in s.destroying
  }

  /** A create and, while its destroy is between the map and the list, an open. */
  lemma OpenedWhileDestroyed(t: Tid, u: Tid, g: RegionId) returns (run: seq<State>, s': State, h: HeapId)
    requires t != u
    ensures Leads(run, Boot({}), s') && Calm(s') && Pc(s', t).Idle? && Pc(s', u) == DesWant(g, h)
    ensures s'.list.Keys == {g} && g in s'.heapMap && InfoAt(s', s'.list[g]).lock == FREE
  {
    var s0 := Boot({});
    var s1, s2, s3, s4, k;
    run, s1, k := Listing([s0], s0, s0, t, Create, g);
    run, s2 := Mapping(run, s0, s1, t, Create, g, k);
    run, s3, h := Unmapping(run, s0, s2, u, g);
    run, s4, k := Losing(run, s0, s3, t, Open, g);
    run, s' := Mapping(run, s0, s4, t, Open, g, k);
  }

  lemma Straying(t: Tid, u: Tid, g: RegionId) returns (run: seq<State>, s': State)
    requires t != u
    ensures Leads(run, Boot({}), s') && Stray(s', g) && Pc(s', t).Idle?
  {
    var s1, s2, s3, h, i;
    run, s1, h := OpenedWhileDestroyed(t, u, g);
    run, s2, i := Unlisting(run, Boot({}), s1, u, g, h);
    run, s3 := Freeing(run, Boot({}), s2, u, g, h, i);
    run, s' := Deleting(run, Boot({}), s3, u, g, h);
  }

  /** One open and one destroy at a time: an open that comes between a destroy's map and list sections maps a heap
      that has no record, and a later create of the region lists its heap, finds the other one in the map and
      deletes its own. */
  lemma CreateWhileMappedUsesDead(t: Tid, u: Tid, g: RegionId) returns (run: seq<State>, s': State)
    requires t != u && 0 < g
    ensures Leads(run, Boot({}), s') && UsesDead(s')
  {
    var s1, s2, h;
    run, s1 := Straying(t, u, g);
    run, s2, h := Listing(run, Boot({}), s1, t, Create, g);
    run, s' := Dropping(run, Boot({}), s2, t, Create, g, h);
  }

  /** ... and before that create, destroying the stray heap takes the branch without a record. */
  lemma BareCloseIsReached(t: Tid, u: Tid, g: RegionId) returns (run: seq<State>, s': State)
    requires t != u
    ensures Leads(run, Boot({}), s') && Pc(s', t).DesBare?
  {
    var s1, s2, h;
    run, s1 := Straying(t, u, g);
    run, s2, h := Unmapping(run, Boot({}), s1, t, g);
    run := Follow(run, Boot({}), s2, Go(t));
    var s3 := Do(s2, Go(t));
    assert Pc(s3, t) == DesIn(g, h);
    run := Follow(run, Boot({}), s3, Go(t));
    s' := Do(s3, Go(t));
  }
}
