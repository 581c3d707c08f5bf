/**
 The locks of the heap registry in every run, also those in which heaps are closed or deleted under the
 delayed-free thread: who holds which lock does not depend on the heaps.
 */
module HeapLocks {
  import opened HeapRegistry
  import opened HeapSafety
  import opened HeapTheorems

  /** A listed record is not locked for writing. */
  predicate LockListOk(s: State, g: RegionId) {
    g in s.list ==>
      var i := s.list[g]; i in s.infos && s.infos[i].region == g && !s.infos[i].deleted && s.infos[i].lock.writer.None?
  }

  /** A record's lock says who works on the record. */
  predicate LockInfoOk(s: State, i: InfoId) {
    i in s.infos ==>
      var l := s.infos[i].lock;
      && i < s.nextInfo && (l.gc <==> GcReadsInfo(s.gc, i)) && (l.gc ==> l.writer.None?)
      && (l.writer.Some? ==> WritesInfo(Pc(s, l.writer.value), i))
  }

  predicate LockPc(s: State, t: Tid, p: PC) {
    match p
    case InsIn(_, _, _) => s.listLock == RwLock(false, Some(t))
    case DesErase(g, _) => Destroys(s, t, g)
    case DesWant(g, _) => Destroys(s, t, g)
    case DesIn(g, _) => Destroys(s, t, g) && s.listLock == RwLock(false, Some(t))
    case DesBare(g, _) => Destroys(s, t, g)
    case DesWantInfo(g, _, i) => Destroys(s, t, g) && OwnsInfo(s, g, i) && s.infos[i].lock.writer.None?
    case DesClose(g, _, i) => Destroys(s, t, g) && OwnsInfo(s, g, i) && s.infos[i].lock == RwLock(false, Some(t))
    case DesUnlock(g, _, i, _) => Destroys(s, t, g) && OwnsInfo(s, g, i) && s.infos[i].lock == RwLock(false, Some(t))
    case DesDelInfo(g, _, i, _) => Destroys(s, t, g) && OwnsInfo(s, g, i) && s.infos[i].lock == FREE
    case DesDelHeap(g, _) => Destroys(s, t, g)
    case DropPool(op, g) => op.Destroy? ==> Destroys(s, t, g)
    case _ => true
  }

  predicate LockThread(s: State, t: Tid) { LockPc(s, t, Pc(s, t)) }

  ghost predicate LockInv(s: State) {
    && (forall g :: LockListOk(s, g))
    && (forall i :: LockInfoOk(s, i))
    && (forall t :: LockThread(s, t))
    && LockOk(s) && GcOk(s)
  }

  // -------------------------------------------------------------------------
  // Steps of the delayed-free thread

  lemma GcMoveLocks(s: State, s': State)
    requires LockInv(s) && GcMoves(s, s')
    requires forall i :: GcReadsInfo(s'.gc, i) <==> GcReadsInfo(s.gc, i)
    requires LockOk(s') && GcOk(s')
    ensures LockInv(s')
  {
    forall g ensures LockListOk(s', g) { assert LockListOk(s, g); }
    forall i ensures LockInfoOk(s', i) { assert LockInfoOk(s, i); }
    forall t ensures LockThread(s', t) { assert LockThread(s, t); }
  }

  lemma GcLockLocks(s: State, s': State, i: InfoId, l: bool)
    requires LockInv(s) && GcLocks(s, s', i, l)
    requires s.infos[i].lock.gc || IsListed(s, s.infos[i].region, i)
    requires forall j :: GcReadsInfo(s'.gc, j) <==> if j == i then l else GcReadsInfo(s.gc, j)
    requires LockOk(s') && GcOk(s')
    ensures LockInv(s')
  {
    forall g ensures LockListOk(s', g) { assert LockListOk(s, g); }
    forall j ensures LockInfoOk(s', j) { assert LockInfoOk(s, j); }
    forall t ensures LockThread(s', t) { assert LockThread(s, t); }
  }

  lemma GcRecordLocks(s: State, pick: Option<RegionId>)
    requires LockInv(s) && (s.gc.WantInfo? || s.gc.Done?) && GcEnabled(s, pick)
    ensures LockInv(StepGc(s, pick))
  {
    if s.gc.WantInfo? { assert LockListOk(s, s.gc.nextId); }
    assert LockInfoOk(s, s.gc.i);
    GcLockLocks(s, StepGc(s, pick), s.gc.i, s.gc.WantInfo?);
  }

  lemma GcListLocks(s: State, pick: Option<RegionId>)
    requires LockInv(s) && (s.gc.Sleep? || s.gc.WantList? || s.gc.Scan? || s.gc.HasBoth?) && GcEnabled(s, pick)
    ensures LockInv(StepGc(s, pick))
  {
    if s.gc.HasBoth? { assert LockListOk(s, s.gc.nextId); }
    GcMoveLocks(s, StepGc(s, pick));
  }

  lemma GcUseLocks(s: State, pick: Option<RegionId>)
    requires LockInv(s) && (s.gc.Check? || s.gc.Use?)
    ensures LockInv(StepGc(s, pick))
  {
    GcMoveLocks(s, StepGc(s, pick));
  }

  lemma GcKeepsLocks(s: State, pick: Option<RegionId>)
    requires LockInv(s) && GcEnabled(s, pick)
    ensures LockInv(StepGc(s, pick))
  {
    if s.gc.WantInfo? || s.gc.Done? {
      GcRecordLocks(s, pick);
    } else if s.gc.Check? || s.gc.Use? {
      GcUseLocks(s, pick);
    } else {
      GcListLocks(s, pick);
    }
  }

  // -------------------------------------------------------------------------
  // Steps of inserters and destroyers

  lemma MoveKeepsLocks(s: State, s': State, t: Tid)
    requires LockInv(s) && Moves(s, s', t) && KeepsRecord(s, s', t)
    requires LockThread(s', t) && LockOk(s')
    ensures LockInv(s')
  {
    forall g ensures LockListOk(s', g) { assert LockListOk(s, g); }
    forall i ensures LockInfoOk(s', i) { assert LockInfoOk(s, i); }
    forall u ensures LockThread(s', u) { assert LockThread(s, u); }
  }

  lemma StartKeepsLocks(s: State, t: Tid, op: Op, g: RegionId)
    requires LockInv(s) && Enabled(s, Start(t, op, g))
    ensures LockInv(StepStart(s, t, op, g))
  {
    MoveKeepsLocks(s, StepStart(s, t, op, g), t);
  }

  lemma CloseKeepsLocks(s: State, t: Tid, ok: bool)
    requires LockInv(s) && (Pc(s, t).DesClose? || Pc(s, t).DesBare?)
    ensures LockInv(StepClose(s, t, ok))
  {
    assert LockThread(s, t);
    MoveKeepsLocks(s, StepClose(s, t, ok), t);
  }

  /** A step that neither lists, unlists nor frees a record. */
  predicate OffList(s: State, t: Tid) {
    match Pc(s, t)
    case InsIn(_, g, _) => g in s.list
    case DesIn(g, _) => g !in s.list
    case p => !HasRecord(p)
  }

  lemma InserterKeepsLocks(s: State, t: Tid)
    requires LockInv(s) && CanGo(s, t) && (Pc(s, t).InsWant? || Pc(s, t).InsIn?) && OffList(s, t)
    ensures LockInv(StepGo(s, t))
  {
    assert LockThread(s, t);
    MoveKeepsLocks(s, StepGo(s, t), t);
  }

  lemma MapperKeepsLocks(s: State, t: Tid, op: Op, g: RegionId, h: HeapId)
    requires LockInv(s) && Pc(s, t) == InsMap(op, g, h)
    ensures LockInv(StepMap(s, t, op, g, h))
  {
    MoveKeepsLocks(s, StepMap(s, t, op, g, h), t);
  }

  lemma DropperKeepsLocks(s: State, t: Tid)
    requires LockInv(s) && (Pc(s, t).InsShut? || Pc(s, t).InsDrop?)
    ensures LockInv(StepGo(s, t))
  {
    MoveKeepsLocks(s, StepGo(s, t), t);
  }

  lemma UnlisterKeepsLocks(s: State, t: Tid)
    requires LockInv(s) && CanGo(s, t) && OffList(s, t)
    requires Pc(s, t).DesErase? || Pc(s, t).DesWant? || Pc(s, t).DesIn?
    ensures LockInv(StepGo(s, t))
  {
    assert LockThread(s, t);
    MoveKeepsLocks(s, StepGo(s, t), t);
  }

  lemma DeleterKeepsLocks(s: State, t: Tid)
    requires LockInv(s) && (Pc(s, t).DesDelHeap? || Pc(s, t).DropPool?)
    ensures LockInv(StepGo(s, t))
  {
    assert LockThread(s, t);
    MoveKeepsLocks(s, StepGo(s, t), t);
  }

  lemma RecordKeepsLocks(s: State, s': State, t: Tid, g: RegionId, i: InfoId)
    requires LockInv(s) && ChangesRecord(s, s', t, g, i)
    requires forall x :: WritesInfo(Pc(s, t), x) ==> x == i
    requires LockThread(s', t) && LockInfoOk(s', i) && LockOk(s')
    ensures LockInv(s')
  {
    forall r ensures LockListOk(s', r) { assert LockListOk(s, r); }
    forall j ensures LockInfoOk(s', j) { assert LockInfoOk(s, j); }
    forall u ensures LockThread(s', u) { assert LockThread(s, u); }
  }

  lemma FreerKeepsLocks(s: State, t: Tid)
    requires LockInv(s) && CanGo(s, t) && HasRecord(Pc(s, t))
    ensures LockInv(StepGo(s, t))
  {
    assert LockThread(s, t) && LockInfoOk(s, Pc(s, t).i);
    RecordKeepsLocks(s, StepGo(s, t), t, Pc(s, t).g, Pc(s, t).i);
  }

  lemma AddKeepsLocks(s: State, t: Tid, op: Op, g: RegionId, h: HeapId)
    requires LockInv(s) && Pc(s, t) == InsIn(op, g, h) && g !in s.list
    ensures LockInv(StepInsert(s, t, op, g, h))
  {
    var s' := StepInsert(s, t, op, g, h);
    assert LockThread(s, t) && LockInfoOk(s, s.nextInfo);
    forall r ensures LockListOk(s', r) { assert LockListOk(s, r); }
    forall j ensures LockInfoOk(s', j) { assert LockInfoOk(s, j); }
    forall u ensures LockThread(s', u) { assert LockThread(s, u); }
  }

  lemma RemoveKeepsLocks(s: State, t: Tid, g: RegionId, h: HeapId)
    requires LockInv(s) && Pc(s, t) == DesIn(g, h) && g in s.list
    ensures LockInv(StepRemove(s, t, g, h))
  {
    var s' := StepRemove(s, t, g, h);
    assert LockThread(s, t) && LockListOk(s, g) && LockInfoOk(s, s.list[g]);
    forall r ensures LockListOk(s', r) { assert LockListOk(s, r); }
    forall j ensures LockInfoOk(s', j) { assert LockInfoOk(s, j); }
    forall u ensures LockThread(s', u) { assert LockThread(s, u); }
  }

  lemma GoKeepsLocks(s: State, t: Tid)
    requires LockInv(s) && CanGo(s, t)
    ensures LockInv(StepGo(s, t))
  {
    match Pc(s, t)
    case InsIn(op, g, h) => if g in s.list { InserterKeepsLocks(s, t); } else { AddKeepsLocks(s, t, op, g, h); }
    case InsWant(_, _, _) => InserterKeepsLocks(s, t);
    case InsMap(op, g, h) => MapperKeepsLocks(s, t, op, g, h);
    case InsShut(_, _) => DropperKeepsLocks(s, t);
    case InsDrop(_, _, _) => DropperKeepsLocks(s, t);
    case DesErase(_, _) => UnlisterKeepsLocks(s, t);
    case DesWant(_, _) => UnlisterKeepsLocks(s, t);
    case DesIn(g, h) => if g in s.list { RemoveKeepsLocks(s, t, g, h); } else { UnlisterKeepsLocks(s, t); }
    case DesDelHeap(_, _) => DeleterKeepsLocks(s, t);
    case DropPool(_, _) => DeleterKeepsLocks(s, t);
    case p => FreerKeepsLocks(s, t);
  }

  lemma NextKeepsLocks(s: State, s': State)
    requires LockInv(s) && Next(s, s')
    ensures LockInv(s')
  {
    var a :| Enabled(s, a) && s' == Do(s, a);
    match a
    case Gc(pick) => GcKeepsLocks(s, pick);
    case Start(t, op, g) => StartKeepsLocks(s, t, op, g);
    case Go(t) => GoKeepsLocks(s, t);
    case Close(t, ok) => CloseKeepsLocks(s, t, ok);
  }

  lemma {:induction false} RunLocks(run: seq<State>, i: nat)
    requires IsRun(run) && i < |run|
    ensures LockInv(run[i])
  {
    if i > 0 {
      RunLocks(run, i - 1);
      assert Next(run[i - 1], run[i - 1 + 1]);
      NextKeepsLocks(run[i - 1], run[i]);
    }
  }

  // -------------------------------------------------------------------------
  // Deadlock freedom

  /** A writer is waiting for the list (for record i). */
  ghost predicate ListWriterWaits(s: State) { exists t :: t in s.pcs && (s.pcs[t].InsWant? || s.pcs[t].DesWant?) }

  ghost predicate InfoWriterWaits(s: State, i: InfoId) {
    exists t :: t in s.pcs && s.pcs[t].DesWantInfo? && s.pcs[t].i == i
  }

  /** Enabled even if waiting writers keep readers out. */
  ghost predicate StrictlyEnabled(s: State, a: Step) {
    && Enabled(s, a)
    && (a.Gc? && s.gc.WantList? ==> !ListWriterWaits(s))
    && (a.Gc? && s.gc.WantInfo? ==> !InfoWriterWaits(s, s.gc.i))
  }

  /** The step belongs to a call, or a pass, that is under way. */
  predicate UnderWay(s: State, a: Step) {
    match a
    case Gc(_) => !s.gc.Sleep?
    case Start(_, _, _) => false
    case Go(t) => !Pc(s, t).Idle?
    case Close(t, _) => !Pc(s, t).Idle?
  }

  /** upper_bound exists. */
  lemma LeastAbove(list: map<RegionId, InfoId>, n: RegionId) returns (pick: Option<RegionId>)
    ensures UpperBound(list, n, pick)
  {
    if m :| m in list && n < m {
      pick := LeastBelow(list, n, m);
    } else {
      pick := None;
    }
  }

  lemma {:induction false} LeastBelow(list: map<RegionId, InfoId>, n: RegionId, m: RegionId)
    returns (pick: Option<RegionId>)
    requires m in list && n < m
    ensures UpperBound(list, n, pick)
    decreases m
  {
    if l :| l in list && n < l < m {
      pick := LeastBelow(list, n, l);
    } else {
      pick := Some(m);
    }
  }

  /** In every state where some call or a pass is under way, some step of one of them can be taken. */
  lemma NoDeadlock(run: seq<State>, i: nat) returns (a: Step)
    requires IsRun(run) && i < |run| && (!run[i].gc.Sleep? || exists t :: !Pc(run[i], t).Idle?)
    ensures UnderWay(run[i], a) && StrictlyEnabled(run[i], a)
  {
    RunLocks(run, i);
    var s := run[i];
    if s.listLock.writer.Some? {
      a := Go(s.listLock.writer.value);
    } else if s.gc.Sleep? {
      var t: Tid :| !Pc(s, t).Idle?;
      a := CallCanStep(s, t);
    } else if s.gc.WantList? && ListWriterWaits(s) {
      var t: Tid :| t in s.pcs && (s.pcs[t].InsWant? || s.pcs[t].DesWant?);
      a := CallCanStep(s, t);
    } else {
      a := GcCanStep(s);
    }
  }

  /** With no reader and no writer on the list, any call can take its next step. */
  lemma CallCanStep(s: State, t: Tid) returns (a: Step)
    requires LockInv(s) && s.listLock == FREE && !Pc(s, t).Idle? && (s.gc.Sleep? || s.gc.WantList?)
    ensures UnderWay(s, a) && StrictlyEnabled(s, a)
  {
    assert LockThread(s, t);
    if Pc(s, t).DesWantInfo? { assert LockInfoOk(s, Pc(s, t).i); }
    a := if Pc(s, t).DesClose? || Pc(s, t).DesBare? then Close(t, true) else Go(t);
  }

  lemma GcCanStep(s: State) returns (a: Step)
    requires LockInv(s) && s.listLock.writer.None? && !s.gc.Sleep? && (s.gc.WantList? ==> !ListWriterWaits(s))
    ensures UnderWay(s, a) && StrictlyEnabled(s, a)
  {
    if s.gc.Scan? {
      var pick := LeastAbove(s.list, s.gc.nextId);
      a := Gc(pick);
    } else {
      a := Gc(None);
      if s.gc.WantInfo? {
        assert LockListOk(s, s.gc.nextId);
        forall t | t in s.pcs && s.pcs[t].DesWantInfo? ensures s.pcs[t].i != s.gc.i { assert LockThread(s, t); }
      }
    }
  }
}
