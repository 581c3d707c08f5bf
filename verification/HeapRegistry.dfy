/**
 The memory server's heap registry: the delayed-free thread walks its list of heaps
 while regions are created, opened and destroyed.

 One list and its thread are modelled; the lists of different delayed-free threads
 have disjoint regions and share no lock.  A step is one lock operation, one section
 under a lock, or one use of a heap or of its record.  Any number of threads create and
 open regions at the same time, also the same region; a region has one destroyer at a
 time, because destroy_region erases through an iterator it got in an earlier section.
 */
module HeapRegistry {
  type Tid = nat
  type RegionId = nat
  type InfoId = nat
  type HeapId = nat

  datatype Option<T> = None | Some(value: T)

  /** Only the delayed-free thread takes these locks for reading. */
  datatype RwLock = RwLock(gc: bool, writer: Option<Tid>)

  /** Fam_Heap_Info_t, once it is in the list. */
  datatype Info = Info(region: RegionId, heap: HeapId, isValid: bool, lock: RwLock, deleted: bool)

  /** The record of a heap, and who may close the heap; recorded, never read by a step. */
  datatype Stage = NoRecord | Listed(i: InfoId) | Unlisted(i: InfoId)
  datatype Holder = ByInserter(t: Tid) | InMap | ByDestroyer(t: Tid)

  datatype Heap = Heap(region: RegionId, isOpen: bool, deleted: bool, stage: Stage, holder: Holder)

  datatype GcPc =
    | Sleep
    | WantList(nextId: RegionId)
    | Scan(nextId: RegionId)
    | WantInfo(nextId: RegionId, i: InfoId)
    | HasBoth(nextId: RegionId, i: InfoId)
    | Check(nextId: RegionId, i: InfoId)
    | Use(nextId: RegionId, i: InfoId)
    | Done(nextId: RegionId, i: InfoId)

  datatype Op = Create | Open | Destroy

  datatype PC =
    | Idle
    | InsWant(op: Op, g: RegionId, h: HeapId)           // create_region/open_heap, heap opened
    | InsIn(op: Op, g: RegionId, h: HeapId)
    | InsMap(op: Op, g: RegionId, h: HeapId)
    | InsShut(g: RegionId, h: HeapId)                   // the map has the region already
    | InsDrop(op: Op, g: RegionId, h: HeapId)
    | DesErase(g: RegionId, h: HeapId)                  // destroy_region, heap found in heapMap
    | DesWant(g: RegionId, h: HeapId)
    | DesIn(g: RegionId, h: HeapId)
    | DesBare(g: RegionId, h: HeapId)                   // no record was listed
    | DesWantInfo(g: RegionId, h: HeapId, i: InfoId)
    | DesClose(g: RegionId, h: HeapId, i: InfoId)
    | DesUnlock(g: RegionId, h: HeapId, i: InfoId, ok: bool)
    | DesDelInfo(g: RegionId, h: HeapId, i: InfoId, ok: bool)
    | DesDelHeap(g: RegionId, h: HeapId)
    | DropPool(op: Op, g: RegionId)                     // DestroyHeap

  datatype State = State(
    list: map<RegionId, InfoId>,         // heap_list
    listLock: RwLock,
    infos: map<InfoId, Info>,
    nextInfo: nat,
    heaps: map<HeapId, Heap>,
    nextHeap: nat,
    heapMap: map<RegionId, HeapId>,
    pools: set<RegionId>,                // heaps the memory manager has
    destroying: map<RegionId, Tid>,
    gc: GcPc,
    visited: seq<RegionId>,              // regions this pass has visited
    stay: set<RegionId>,                 // regions listed ever since this pass began
    pcs: map<Tid, PC>)

  datatype Step =
    | Gc(pick: Option<RegionId>)
    | Start(t: Tid, op: Op, g: RegionId)
    | Go(t: Tid)
    | Close(t: Tid, ok: bool)

  const FREE := RwLock(false, None)

  /** A memory server that has just started, over the pools it finds. */
  function Boot(pools: set<RegionId>): State {
    State(map[], FREE, map[], 0, map[], 0, map[], pools, map[], Sleep, [], {}, map[])
  }

  function Pc(s: State, t: Tid): PC { if t in s.pcs then s.pcs[t] else Idle }

  const NO_INFO := Info(0, 0, false, FREE, true)
  const NO_HEAP := Heap(0, false, true, NoRecord, InMap)

  function InfoAt(s: State, i: InfoId): Info { if i in s.infos then s.infos[i] else NO_INFO }

  function HeapAt(s: State, h: HeapId): Heap { if h in s.heaps then s.heaps[h] else NO_HEAP }

  function To(s: State, t: Tid, p: PC): State { s.(pcs := s.pcs[t := p]) }

  function SetInfo(s: State, i: InfoId, x: Info): State { s.(infos := s.infos[i := x]) }

  function SetHeap(s: State, h: HeapId, x: Heap): State { s.(heaps := s.heaps[h := x]) }

  /** heap_list->upper_bound(n). */
  predicate UpperBound(list: map<RegionId, InfoId>, n: RegionId, pick: Option<RegionId>) {
    match pick
    case None => forall g :: g in list ==> g <= n
    case Some(m) => m in list && n < m && forall g :: g in list && n < g ==> m <= g
  }

  predicate GcEnabled(s: State, pick: Option<RegionId>) {
    match s.gc
    case WantList(_) => s.listLock.writer.None?
    case Scan(n) => UpperBound(s.list, n, pick)
    case WantInfo(_, i) => InfoAt(s, i).lock.writer.None?
    case _ => true
  }

  /** create_region needs a new pool, open_heap an existing one that is not mapped. */
  predicate CanStart(s: State, op: Op, g: RegionId) {
    match op
    case Create => g !in s.pools
    case Open => g in s.pools && g !in s.heapMap
    case Destroy => g !in s.destroying
  }

  predicate CanGo(s: State, t: Tid) {
    match Pc(s, t)
    case Idle => false
    case InsWant(_, _, _) => s.listLock == FREE
    case DesWant(_, _) => s.listLock == FREE
    case DesWantInfo(_, _, i) => InfoAt(s, i).lock == FREE
    case DesClose(_, _, _) => false
    case DesBare(_, _) => false
    case _ => true
  }

  predicate Enabled(s: State, a: Step) {
    match a
    case Gc(pick) => GcEnabled(s, pick)
    case Start(t, op, g) => Pc(s, t).Idle? && CanStart(s, op, g)
    case Go(t) => CanGo(s, t)
    case Close(t, _) => Pc(s, t).DesClose? || Pc(s, t).DesBare?
  }

  // -------------------------------------------------------------------------
  // The delayed-free thread

  function LockInfo(s: State, i: InfoId, l: RwLock): State { SetInfo(s, i, InfoAt(s, i).(lock := l)) }

  function StepGc(s: State, pick: Option<RegionId>): State
    requires GcEnabled(s, pick)
  {
    match s.gc
    case Sleep => s.(gc := WantList(0), visited := [], stay := s.list.Keys)
    case WantList(n) => s.(gc := Scan(n), listLock := RwLock(true, None))
    case Scan(n) =>
      if pick.None? then s.(gc := Sleep, listLock := FREE)
      else s.(gc := WantInfo(pick.value, s.list[pick.value]), visited := s.visited + [pick.value])
    case WantInfo(n, i) => LockInfo(s, i, RwLock(true, None)).(gc := HasBoth(n, i))
    case HasBoth(n, i) => s.(gc := Check(n, i), listLock := FREE)
    case Check(n, i) =>
      s.(gc := if InfoAt(s, i).isValid && HeapAt(s, InfoAt(s, i).heap).isOpen then Use(n, i) else Done(n, i))
    case Use(n, i) => s.(gc := Done(n, i))
    case Done(n, i) => LockInfo(s, i, FREE).(gc := WantList(n))
  }

  // -------------------------------------------------------------------------
  // Inserters and destroyers

  function StepStart(s: State, t: Tid, op: Op, g: RegionId): State
    requires Enabled(s, Start(t, op, g))
  {
    if op.Destroy? then
      To(s.(destroying := s.destroying[g := t]), t,
         if g in s.heapMap then DesErase(g, s.heapMap[g]) else DropPool(Destroy, g))
    else
      var h := s.nextHeap;
      To(SetHeap(s, h, Heap(g, true, false, NoRecord, ByInserter(t))).(nextHeap := h + 1, pools := s.pools + {g}),
         t, InsWant(op, g, h))
  }

  /** heap_list->insert leaves a listed region's record as it is; the new record is lost. */
  function StepInsert(s: State, t: Tid, op: Op, g: RegionId, h: HeapId): State {
    To(if g in s.list then s.(listLock := FREE) else AddRecord(s, g, h), t, InsMap(op, g, h))
  }

  function AddRecord(s: State, g: RegionId, h: HeapId): State {
    var i := s.nextInfo;
    SetHeap(SetInfo(s, i, Info(g, h, true, FREE, false)), h, HeapAt(s, h).(stage := Listed(i)))
      .(list := s.list[g := i], nextInfo := i + 1, listLock := FREE)
  }

  /** If the map has the region already, create_region deletes its heap, open_heap closes it first. */
  function StepMap(s: State, t: Tid, op: Op, g: RegionId, h: HeapId): State {
    if g in s.heapMap then To(s, t, if op.Open? then InsShut(g, h) else InsDrop(op, g, h))
    else To(SetHeap(s, h, HeapAt(s, h).(holder := InMap)).(heapMap := s.heapMap[g := h]), t, Idle)
  }

  function StepShut(s: State, t: Tid, g: RegionId, h: HeapId): State {
    To(SetHeap(s, h, HeapAt(s, h).(isOpen := false)), t, InsDrop(Open, g, h))
  }

  function StepDrop(s: State, t: Tid, op: Op, g: RegionId, h: HeapId): State {
    To(SetHeap(s, h, HeapAt(s, h).(deleted := true)), t, if op.Create? then DropPool(op, g) else Idle)
  }

  function StepErase(s: State, t: Tid, g: RegionId, h: HeapId): State {
    To(SetHeap(s, h, HeapAt(s, h).(holder := ByDestroyer(t))).(heapMap := s.heapMap - {g}), t, DesWant(g, h))
  }

  /** remove_heap_from_list: under the list's write lock, mark the region's record, whatever its heap, and unlist it. */
  function StepRemove(s: State, t: Tid, g: RegionId, h: HeapId): State
    requires g in s.list
  {
    var i := s.list[g];
    var x := InfoAt(s, i);
    To(SetHeap(SetInfo(s, i, x.(isValid := false)), x.heap, HeapAt(s, x.heap).(stage := Unlisted(i)))
         .(list := s.list - {g}, stay := s.stay - {g}, listLock := FREE), t, DesWantInfo(g, h, i))
  }

  function ShutHeap(s: State, h: HeapId, ok: bool): State {
    SetHeap(s, h, HeapAt(s, h).(isOpen := HeapAt(s, h).isOpen && !ok))
  }

  /** heap->Close(), under the record's write lock if there is a record; it may fail. */
  function StepClose(s: State, t: Tid, ok: bool): State
    requires Pc(s, t).DesClose? || Pc(s, t).DesBare?
  {
    match Pc(s, t)
    case DesClose(g, h, i) => To(ShutHeap(s, h, ok), t, DesUnlock(g, h, i, ok))
    case DesBare(g, h) =>
      To(ShutHeap(s, h, ok).(destroying := if ok then s.destroying else s.destroying - {g}),
         t, if ok then DesDelHeap(g, h) else Idle)
  }

  /** delete heapInfo; a failed close throws before the heap is deleted. */
  function StepDelInfo(s: State, t: Tid, g: RegionId, h: HeapId, i: InfoId, ok: bool): State {
    To(SetInfo(s, i, InfoAt(s, i).(deleted := true)).(destroying := if ok then s.destroying else s.destroying - {g}),
       t, if ok then DesDelHeap(g, h) else Idle)
  }

  function StepDelHeap(s: State, t: Tid, g: RegionId, h: HeapId): State {
    To(SetHeap(s, h, HeapAt(s, h).(deleted := true)), t, DropPool(Destroy, g))
  }

  function StepDropPool(s: State, t: Tid, op: Op, g: RegionId): State {
    To(s.(pools := s.pools - {g}, destroying := if op.Destroy? then s.destroying - {g} else s.destroying), t, Idle)
  }

  function StepGo(s: State, t: Tid): State
    requires CanGo(s, t)
  {
    match Pc(s, t)
    case InsWant(op, g, h) => To(s.(listLock := RwLock(false, Some(t))), t, InsIn(op, g, h))
    case InsIn(op, g, h) => StepInsert(s, t, op, g, h)
    case InsMap(op, g, h) => StepMap(s, t, op, g, h)
    case InsShut(g, h) => StepShut(s, t, g, h)
    case InsDrop(op, g, h) => StepDrop(s, t, op, g, h)
    case DesErase(g, h) => StepErase(s, t, g, h)
    case DesWant(g, h) => To(s.(listLock := RwLock(false, Some(t))), t, DesIn(g, h))
    case DesIn(g, h) => if g in s.list then StepRemove(s, t, g, h) else To(s.(listLock := FREE), t, DesBare(g, h))
    case DesWantInfo(g, h, i) => To(LockInfo(s, i, RwLock(false, Some(t))), t, DesClose(g, h, i))
    case DesUnlock(g, h, i, ok) => To(LockInfo(s, i, FREE), t, DesDelInfo(g, h, i, ok))
    case DesDelInfo(g, h, i, ok) => StepDelInfo(s, t, g, h, i, ok)
    case DesDelHeap(g, h) => StepDelHeap(s, t, g, h)
    case DropPool(op, g) => StepDropPool(s, t, op, g)
  }

  function Do(s: State, a: Step): State
    requires Enabled(s, a)
  {
    match a
    case Gc(pick) => StepGc(s, pick)
    case Start(t, op, g) => StepStart(s, t, op, g)
    case Go(t) => StepGo(s, t)
    case Close(t, ok) => StepClose(s, t, ok)
  }
}
