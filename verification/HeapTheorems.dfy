/**
 What the heap registry guarantees over whole runs.
 */
module HeapTheorems {
  import opened HeapRegistry
  import opened HeapSafety

  ghost predicate Next(s: State, s': State) { exists a :: Enabled(s, a) && s' == Do(s, a) }

  ghost predicate AllowedNext(s: State, s': State) {
    exists a :: Enabled(s, a) && Allowed(s, a) && s' == Do(s, a)
  }

  /** Any interleaving of the delayed-free thread with creates, opens and destroys, from a server's start. */
  ghost predicate IsRun(run: seq<State>) {
    |run| > 0 && run[0] == Boot(run[0].pools) && forall i :: 0 <= i < |run| - 1 ==> Next(run[i], run[i + 1])
  }

  /** ... in which no heap is closed or deleted under the delayed-free thread because it could not be mapped. */
  ghost predicate IsAllowedRun(run: seq<State>) {
    |run| > 0 && run[0] == Boot(run[0].pools) && forall i :: 0 <= i < |run| - 1 ==> AllowedNext(run[i], run[i + 1])
  }

  lemma {:induction false} RunInv(run: seq<State>, i: nat)
    requires IsAllowedRun(run) && i < |run|
    ensures Inv(run[i])
  {
    if i == 0 {
      BootInv(run[0].pools);
    } else {
      RunInv(run, i - 1);
      assert AllowedNext(run[i - 1], run[i - 1 + 1]);
      var a :| Enabled(run[i - 1], a) && Allowed(run[i - 1], a) && run[i] == Do(run[i - 1], a);
      StepKeepsInv(run[i - 1], a);
    }
  }

  lemma {:induction false} RunPass(run: seq<State>, i: nat)
    requires IsRun(run) && i < |run|
    ensures PassOk(run[i])
  {
    if i > 0 {
      RunPass(run, i - 1);
      assert Next(run[i - 1], run[i - 1 + 1]);
      var a :| Enabled(run[i - 1], a) && run[i] == Do(run[i - 1], a);
      StepKeepsPass(run[i - 1], a);
    }
  }

  // -------------------------------------------------------------------------
  // No use after close or delete

  /** Whatever record the delayed-free thread is about to touch exists, and a heap it uses is open. */
  lemma GcNeverUsesDead(run: seq<State>, i: nat)
    requires IsAllowedRun(run) && i < |run|
    ensures var s := run[i];
      s.gc.WantInfo? || s.gc.HasBoth? || s.gc.Check? || s.gc.Use? || s.gc.Done? ==>
        && s.gc.i in s.infos && !s.infos[s.gc.i].deleted
        && s.infos[s.gc.i].heap in s.heaps
        && s.heaps[s.infos[s.gc.i].heap].isOpen && !s.heaps[s.infos[s.gc.i].heap].deleted
  {
    RunInv(run, i);
    var s := run[i];
    if s.gc.WantInfo? {
      assert ListOk(s, s.gc.nextId);
    } else if s.gc.HasBoth? || s.gc.Check? || s.gc.Use? || s.gc.Done? {
      if s.gc.HasBoth? { assert ListOk(s, s.gc.nextId); }
      assert InfoOk(s, s.gc.i);
    }
  }

  /** With or without a record, a destroyer closes an open heap that the delayed-free thread cannot reach, deletes a
      record nobody holds or will find, and deletes each record and heap once. */
  lemma DestroyerOwnsWhatItFrees(run: seq<State>, i: nat, t: Tid)
    requires IsAllowedRun(run) && i < |run|
    ensures var s, p := run[i], Pc(run[i], t);
      && (p.DesClose? || p.DesBare? ==>
            p.h in s.heaps && s.heaps[p.h].isOpen && !s.heaps[p.h].deleted && !GcReaches(s, p.h))
      && (p.DesDelInfo? ==> p.i in s.infos && !s.infos[p.i].deleted && !GcReadsInfo(s.gc, p.i)
                            && s.gc != WantInfo(p.g, p.i) && !IsListed(s, p.g, p.i))
      && (p.DesDelHeap? ==> p.h in s.heaps && !s.heaps[p.h].isOpen && !s.heaps[p.h].deleted && !GcReaches(s, p.h))
  {
    RunInv(run, i);
    var s, p := run[i], Pc(run[i], t);
    assert ThreadOk(s, t);
    if p.DesClose? {
      DetachedUnreached(s, p.h, Some(p.i));
    } else if p.DesBare? || p.DesDelHeap? {
      DetachedUnreached(s, p.h, None);
    } else if p.DesDelInfo? {
      assert InfoOk(s, p.i);
    }
  }

  /** Closing or deleting a heap that could not be mapped is safe if and only if its record is neither listed nor
      held by the delayed-free thread. */
  lemma DropSafeIffUnreached(s: State, t: Tid)
    requires Inv(s) && (Pc(s, t).InsShut? || Pc(s, t).InsDrop?)
    ensures Inv(StepGo(s, t)) <==> !GcReaches(s, Pc(s, t).h)
  {
    var s', h := StepGo(s, t), Pc(s, t).h;
    if !GcReaches(s, h) {
      StepKeepsInv(s, Go(t));
    } else {
      assert ThreadOk(s, t) && HeapOk(s, h);
      var i := s.heaps[h].stage.i;
      assert InfoOk(s, i);
      if IsListed(s, s.infos[i].region, i) { assert !ListOk(s', s.infos[i].region); } else { assert !InfoOk(s', i); }
    }
  }

  // -------------------------------------------------------------------------
  // One pass of the delayed-free thread

  ghost predicate Increasing(v: seq<RegionId>) { forall i, j :: 0 <= i < j < |v| ==> v[i] < v[j] }

  /** The pass so far: ids below nextId that stayed listed have been visited, in order. */
  ghost predicate PassOk(s: State) {
    && s.stay <= s.list.Keys
    && Increasing(s.visited)
    && (forall i :: 0 <= i < |s.visited| ==> 0 < s.visited[i])
    && if s.gc.Sleep? then forall g :: g in s.stay && 0 < g ==> g in s.visited
       else
         && (forall i :: 0 <= i < |s.visited| ==> s.visited[i] <= s.gc.nextId)
         && (forall g :: g in s.stay && 0 < g <= s.gc.nextId ==> g in s.visited)
  }

  /** What a thread other than the delayed-free thread does to the pass. */
  predicate PassBystander(s: State, s': State) {
    && s'.gc == s.gc && s'.visited == s.visited && s'.stay <= s.stay
    && (forall g :: g in s.stay && g in s.list ==> (g in s'.list <==> g in s'.stay))
    && (forall g :: g in s.list && g in s'.list ==> s'.list[g] == s.list[g])
  }

  lemma ListerIsBystander(s: State, t: Tid, op: Op, g: RegionId, h: HeapId)
    requires Pc(s, t) == InsIn(op, g, h)
    ensures PassBystander(s, StepInsert(s, t, op, g, h))
  {
  }

  lemma UnlisterIsBystander(s: State, t: Tid)
    requires Pc(s, t).DesIn?
    ensures PassBystander(s, StepGo(s, t))
  {
  }

  lemma MapperIsBystander(s: State, t: Tid)
    requires Enabled(s, Go(t)) && (Inserts(Pc(s, t)) || Pc(s, t).DesErase? || Pc(s, t).DesWant?) && !Pc(s, t).InsIn?
    ensures PassBystander(s, StepGo(s, t))
  {
  }

  lemma LockerIsBystander(s: State, t: Tid)
    requires Enabled(s, Go(t)) && (Pc(s, t).DesWantInfo? || Pc(s, t).DesUnlock?)
    ensures PassBystander(s, StepGo(s, t))
  {
  }

  lemma FreerIsBystander(s: State, t: Tid)
    requires Pc(s, t).DesDelInfo? || Pc(s, t).DesDelHeap? || Pc(s, t).DropPool?
    ensures PassBystander(s, StepGo(s, t))
  {
  }

  lemma GoIsBystander(s: State, t: Tid)
    requires Enabled(s, Go(t))
    ensures PassBystander(s, StepGo(s, t))
  {
    var p := Pc(s, t);
    if p.InsIn? {
      ListerIsBystander(s, t, p.op, p.g, p.h);
    } else if p.DesIn? {
      UnlisterIsBystander(s, t);
    } else if Inserts(p) || p.DesErase? || p.DesWant? {
      MapperIsBystander(s, t);
    } else if p.DesWantInfo? || p.DesUnlock? {
      LockerIsBystander(s, t);
    } else {
      FreerIsBystander(s, t);
    }
  }

  lemma StartIsBystander(s: State, t: Tid, op: Op, g: RegionId)
    requires Enabled(s, Start(t, op, g))
    ensures PassBystander(s, StepStart(s, t, op, g))
  {
  }

  lemma CloseIsBystander(s: State, t: Tid, ok: bool)
    requires Enabled(s, Close(t, ok))
    ensures PassBystander(s, StepClose(s, t, ok))
  {
  }

  lemma OtherIsBystander(s: State, a: Step)
    requires Enabled(s, a) && !a.Gc?
    ensures PassBystander(s, Do(s, a))
  {
    match a
    case Start(t, op, g) => StartIsBystander(s, t, op, g);
    case Go(t) => GoIsBystander(s, t);
    case Close(t, ok) => CloseIsBystander(s, t, ok);
  }

  lemma BystanderKeepsPass(s: State, s': State)
    requires PassOk(s) && PassBystander(s, s')
    ensures PassOk(s')
  {
  }

  lemma StepKeepsPass(s: State, a: Step)
    requires PassOk(s) && Enabled(s, a)
    ensures PassOk(Do(s, a))
  {
    if a.Gc? {
      GcKeepsPass(s, a.pick);
    } else {
      OtherIsBystander(s, a);
      BystanderKeepsPass(s, Do(s, a));
    }
  }

  /** Between two looks at the list the delayed-free thread leaves the pass as it is. */
  predicate SamePass(s: State, s': State) {
    && !s.gc.Sleep? && !s'.gc.Sleep? && s'.gc.nextId == s.gc.nextId
    && s'.list == s.list && s'.visited == s.visited && s'.stay == s.stay
    && s'.pcs == s.pcs && s'.heapMap == s.heapMap
  }

  lemma LockingKeepsPass(s: State, pick: Option<RegionId>)
    requires GcEnabled(s, pick) && (s.gc.WantList? || s.gc.WantInfo? || s.gc.HasBoth?)
    ensures SamePass(s, StepGc(s, pick))
  {
  }

  lemma UsingKeepsPass(s: State, pick: Option<RegionId>)
    requires s.gc.Check? || s.gc.Use? || s.gc.Done?
    ensures SamePass(s, StepGc(s, pick))
  {
  }

  lemma GcKeepsPass(s: State, pick: Option<RegionId>)
    requires PassOk(s) && GcEnabled(s, pick)
    ensures PassOk(StepGc(s, pick))
  {
    if s.gc.Scan? {
      ScanKeepsPass(s, pick);
    } else if s.gc.WantList? || s.gc.WantInfo? || s.gc.HasBoth? {
      LockingKeepsPass(s, pick);
    } else if !s.gc.Sleep? {
      UsingKeepsPass(s, pick);
    }
  }

  lemma ScanKeepsPass(s: State, pick: Option<RegionId>)
    requires PassOk(s) && s.gc.Scan? && GcEnabled(s, pick)
    ensures PassOk(StepGc(s, pick))
  {
    var s' := StepGc(s, pick);
    if pick.Some? {
      forall g | g in s'.stay && 0 < g <= pick.value ensures g in s'.visited {
        if g <= s.gc.nextId { assert g in s.visited; } else { assert s'.visited[|s.visited|] == g; }
      }
    }
  }

  /** Steps i..j of the run are one pass: from waking up to going back to sleep. */
  predicate IsPass(run: seq<State>, i: nat, j: nat) {
    && i < j < |run| && run[i].gc.Sleep? && run[i + 1].gc == WantList(0) && run[j].gc.Sleep?
    && forall m :: i < m < j ==> !run[m].gc.Sleep?
  }

  lemma GcKeepsStay(s: State, pick: Option<RegionId>)
    requires GcEnabled(s, pick)
    ensures StepGc(s, pick).stay == if s.gc.Sleep? then s.list.Keys else s.stay
  {
    if s.gc.WantList? || s.gc.WantInfo? || s.gc.HasBoth? {
      LockingKeepsPass(s, pick);
    } else if s.gc.Check? || s.gc.Use? || s.gc.Done? {
      UsingKeepsPass(s, pick);
    }
  }

  lemma StayStep(s: State, a: Step, g: RegionId)
    requires Enabled(s, a) && g in s.list && g in Do(s, a).list
    requires if s.gc.Sleep? then !Do(s, a).gc.Sleep? else g in s.stay
    ensures g in Do(s, a).stay
  {
    if a.Gc? { GcKeepsStay(s, a.pick); } else { OtherIsBystander(s, a); }
  }

  /** A region listed before and after a step of a pass is still one the pass has to visit. */
  predicate KeepsStay(s: State, s': State, g: RegionId) {
    g in s.list && g in s'.list && (if s.gc.Sleep? then !s'.gc.Sleep? else g in s.stay) ==> g in s'.stay
  }

  lemma StayNext(run: seq<State>, n: nat, g: RegionId)
    requires IsRun(run) && n + 1 < |run|
    ensures KeepsStay(run[n], run[n + 1], g)
  {
    assert Next(run[n], run[n + 1]);
    var a :| Enabled(run[n], a) && run[n + 1] == Do(run[n], a);
    if !KeepsStay(run[n], run[n + 1], g) { StayStep(run[n], a, g); }
  }

  lemma {:induction false} StayTracks(run: seq<State>, i: nat, j: nat, m: nat, g: RegionId)
    requires IsPass(run, i, j) && i < m <= j
    requires forall n :: 0 <= n < |run| - 1 ==> KeepsStay(run[n], run[n + 1], g)
    requires forall n :: i <= n <= j ==> g in run[n].list
    ensures g in run[m].stay
  {
    if m > i + 1 { StayTracks(run, i, j, m - 1, g); }
    assert KeepsStay(run[m - 1], run[m - 1 + 1], g);
  }

  /** One pass visits every region above 0 that stays listed throughout, each visited region once
      and in increasing order, whatever is inserted and removed meanwhile. */
  lemma PassVisitsAll(run: seq<State>, i: nat, j: nat, g: RegionId)
    requires IsRun(run) && IsPass(run, i, j) && 0 < g
    requires forall n :: i <= n <= j ==> g in run[n].list
    ensures exists n :: 0 <= n < |run[j].visited| && run[j].visited[n] == g
    ensures Increasing(run[j].visited)
  {
    RunPass(run, j);
    forall n | 0 <= n < |run| - 1 ensures KeepsStay(run[n], run[n + 1], g) { StayNext(run, n, g); }
    StayTracks(run, i, j, j, g);
  }

  // -------------------------------------------------------------------------
  // What a pass uses

  /** The delayed-free thread used the heap of g in some state after i. */
  ghost predicate Used(run: seq<State>, i: nat, m: nat, g: RegionId)
    requires m < |run|
  {
    exists n :: i < n <= m && run[n].gc.Use? && run[n].gc.nextId == g
  }

  /** It is on its way to use it, with the record that is listed. */
  predicate OnTheWay(s: State, g: RegionId) {
    (s.gc.WantInfo? || s.gc.HasBoth? || s.gc.Check?) && s.gc.nextId == g && g in s.list && s.list[g] == s.gc.i
  }

  ghost predicate UsedAt(run: seq<State>, i: nat, m: nat, g: RegionId)
    requires m < |run|
  {
    g in run[m].visited ==> Used(run, i, m, g) || OnTheWay(run[m], g)
  }

  lemma EntryStays(s: State, a: Step, g: RegionId)
    requires Enabled(s, a) && !a.Gc? && g in s.list && g in Do(s, a).list
    ensures Do(s, a).list[g] == s.list[g] && Do(s, a).gc == s.gc && Do(s, a).visited == s.visited
  {
    OtherIsBystander(s, a);
  }

  lemma GcGoesToUse(s: State, pick: Option<RegionId>, g: RegionId)
    requires Inv(s) && GcEnabled(s, pick) && OnTheWay(s, g)
    ensures var s' := StepGc(s, pick); OnTheWay(s', g) || (s'.gc.Use? && s'.gc.nextId == g)
    ensures StepGc(s, pick).visited == s.visited
  {
    assert ListOk(s, g);
  }

  lemma GcVisits(s: State, pick: Option<RegionId>, g: RegionId)
    requires GcEnabled(s, pick) && !s.gc.Sleep? && g in s.list && g in StepGc(s, pick).visited
    ensures g in s.visited || OnTheWay(StepGc(s, pick), g)
  {
    if s.gc.WantList? || s.gc.WantInfo? || s.gc.HasBoth? {
      LockingKeepsPass(s, pick);
    } else if s.gc.Check? || s.gc.Use? || s.gc.Done? {
      UsingKeepsPass(s, pick);
    }
  }

  lemma UsedNext(run: seq<State>, i: nat, m: nat, g: RegionId)
    requires i < m && m + 1 < |run|
    ensures Used(run, i, m + 1, g) <==>
      Used(run, i, m, g) || (run[m + 1].gc.Use? && run[m + 1].gc.nextId == g)
  {
  }

  lemma UsedStep(run: seq<State>, i: nat, m: nat, g: RegionId)
    requires IsAllowedRun(run) && i < m && m + 1 < |run| && !run[m].gc.Sleep?
    requires UsedAt(run, i, m, g) && g in run[m].list && g in run[m + 1].list
    ensures UsedAt(run, i, m + 1, g)
  {
    RunInv(run, m);
    UsedNext(run, i, m, g);
    assert AllowedNext(run[m], run[m + 1]);
    var a :| Enabled(run[m], a) && Allowed(run[m], a) && run[m + 1] == Do(run[m], a);
    UsedMoves(run[m], a, g);
  }

  /** A step keeps the thread on its way, or uses the heap, or begins a visit. */
  lemma UsedMoves(s: State, a: Step, g: RegionId)
    requires Inv(s) && Enabled(s, a) && !s.gc.Sleep? && g in s.list && g in Do(s, a).list
    ensures OnTheWay(s, g) ==> OnTheWay(Do(s, a), g) || (Do(s, a).gc.Use? && Do(s, a).gc.nextId == g)
    ensures g in Do(s, a).visited ==> g in s.visited || OnTheWay(Do(s, a), g)
  {
    if !a.Gc? {
      EntryStays(s, a, g);
    } else {
      if OnTheWay(s, g) { GcGoesToUse(s, a.pick, g); }
      if g in Do(s, a).visited { GcVisits(s, a.pick, g); }
    }
  }

  lemma PassStartsEmpty(run: seq<State>, i: nat)
    requires IsRun(run) && i + 1 < |run| && run[i].gc.Sleep? && run[i + 1].gc == WantList(0)
    ensures run[i + 1].visited == []
  {
    assert Next(run[i], run[i + 1]);
    var a :| Enabled(run[i], a) && run[i + 1] == Do(run[i], a);
    if !a.Gc? { OtherIsBystander(run[i], a); }
  }

  ghost predicate UsedKept(run: seq<State>, i: nat, m: nat, g: RegionId)
    requires m + 1 < |run|
  {
    UsedAt(run, i, m, g) ==> UsedAt(run, i, m + 1, g)
  }

  lemma {:induction false} UsedThroughout(run: seq<State>, i: nat, m: nat, g: RegionId)
    requires i < m < |run| && UsedAt(run, i, i + 1, g) && forall n :: i < n < m ==> UsedKept(run, i, n, g)
    ensures UsedAt(run, i, m, g)
  {
    if m > i + 1 {
      UsedThroughout(run, i, m - 1, g);
      assert UsedKept(run, i, m - 1, g);
    }
  }

  lemma AllowedRunIsRun(run: seq<State>)
    requires IsAllowedRun(run)
    ensures IsRun(run)
  {
    forall i | 0 <= i < |run| - 1 ensures Next(run[i], run[i + 1]) { assert AllowedNext(run[i], run[i + 1]); }
  }

  /** ... and uses the heap of each of them: nothing that stays listed is left out by the delayed free. */
  lemma PassUsesAll(run: seq<State>, i: nat, j: nat, g: RegionId)
    requires IsAllowedRun(run) && IsPass(run, i, j) && 0 < g
    requires forall n :: i <= n <= j ==> g in run[n].list
    ensures exists n :: i < n < j && run[n].gc.Use? && run[n].gc.nextId == g
  {
    AllowedRunIsRun(run);
    PassVisitsAll(run, i, j, g);
    PassStartsEmpty(run, i);
    forall m | i < m < j ensures UsedKept(run, i, m, g) {
      if UsedAt(run, i, m, g) { UsedStep(run, i, m, g); }
    }
    UsedThroughout(run, i, j, g);
    var n :| i < n <= j && run[n].gc.Use? && run[n].gc.nextId == g;
    assert n != j;
  }

  lemma {:induction false} IncreasingBound(v: seq<RegionId>, bound: nat)
    requires Increasing(v) && (forall i :: 0 <= i < |v| ==> 0 < v[i] <= bound)
    ensures |v| <= bound
  {
    if |v| > 0 {
      var last := v[|v| - 1];
      IncreasingBound(v[..|v| - 1], last - 1);
    }
  }

  /** Each look at the list moves nextId up to a listed id, or ends the pass. */
  lemma VisitAdvances(s: State, pick: Option<RegionId>)
    requires s.gc.Scan? && GcEnabled(s, pick)
    ensures var s' := StepGc(s, pick);
      s'.gc.Sleep? || (s'.gc.WantInfo? && s.gc.nextId < s'.gc.nextId && s'.gc.nextId in s.list)
  {
  }

  ghost predicate IdsUpTo(s: State, bound: nat) { forall g :: g in s.list ==> g <= bound }

  ghost predicate NextIdUpTo(s: State, bound: nat) { s.gc.Sleep? || s.gc.nextId <= bound }

  lemma NextIdStep(s: State, a: Step, bound: nat)
    requires Enabled(s, a) && IdsUpTo(s, bound) && NextIdUpTo(s, bound)
    ensures NextIdUpTo(Do(s, a), bound)
  {
    if !a.Gc? {
      OtherIsBystander(s, a);
    } else if s.gc.Scan? {
      VisitAdvances(s, a.pick);
    } else if s.gc.WantList? || s.gc.WantInfo? || s.gc.HasBoth? {
      LockingKeepsPass(s, a.pick);
    } else if !s.gc.Sleep? {
      UsingKeepsPass(s, a.pick);
    }
  }

  lemma {:induction false} NextIdBounded(run: seq<State>, i: nat, bound: nat)
    requires IsRun(run) && i < |run| && (forall n :: 0 <= n < i ==> IdsUpTo(run[n], bound))
    ensures NextIdUpTo(run[i], bound)
  {
    if i > 0 {
      NextIdBounded(run, i - 1, bound);
      assert Next(run[i - 1], run[i - 1 + 1]);
      var a :| Enabled(run[i - 1], a) && run[i] == Do(run[i - 1], a);
      NextIdStep(run[i - 1], a, bound);
    }
  }

  /** A pass over ids up to `bound` makes at most `bound` visits: each moves nextId up (VisitAdvances)
      and nextId never passes the largest id. */
  lemma PassTerminates(run: seq<State>, i: nat, bound: nat)
    requires IsRun(run) && i < |run| && !run[i].gc.Sleep? && (forall n :: 0 <= n < i ==> IdsUpTo(run[n], bound))
    ensures |run[i].visited| <= run[i].gc.nextId <= bound
  {
    RunPass(run, i);
    NextIdBounded(run, i, bound);
    IncreasingBound(run[i].visited, run[i].gc.nextId);
  }

  // -------------------------------------------------------------------------
  // When no heap is ever dropped

  /** Thread t is creating or opening region g. */
  predicate InsertsIn(s: State, t: Tid, g: RegionId) { Inserts(Pc(s, t)) && Pc(s, t).g == g }

  /** An insert of g starts only if g is not mapped and nobody else is inserting it. */
  ghost predicate Serial(s: State, a: Step) {
    a.Start? && !a.op.Destroy? ==> a.g !in s.heapMap && forall t :: !InsertsIn(s, t, a.g)
  }

  ghost predicate SerialNext(s: State, s': State) { exists a :: Enabled(s, a) && Serial(s, a) && s' == Do(s, a) }

  ghost predicate IsSerialRun(run: seq<State>) {
    |run| > 0 && run[0] == Boot(run[0].pools) && forall i :: 0 <= i < |run| - 1 ==> SerialNext(run[i], run[i + 1])
  }

  /** The region a thread is inserting is not mapped. */
  predicate NotMapped(s: State, t: Tid) {
    Inserts(Pc(s, t)) ==> !Pc(s, t).InsShut? && !Pc(s, t).InsDrop? && Pc(s, t).g !in s.heapMap
  }

  /** Two threads insert two regions. */
  predicate Apart(s: State, t: Tid, u: Tid) {
    t != u && Inserts(Pc(s, t)) && Inserts(Pc(s, u)) ==> Pc(s, t).g != Pc(s, u).g
  }

  ghost predicate OneInserterEach(s: State) { (forall t :: NotMapped(s, t)) && (forall t, u :: Apart(s, t, u)) }

  /** Thread t goes on inserting its region, or maps it and is done, or does something else. */
  predicate StaysSerial(s: State, s': State, t: Tid) {
    && s'.pcs == s.pcs[t := Pc(s', t)]
    && (Inserts(Pc(s', t)) ==>
          && !Pc(s', t).InsShut? && !Pc(s', t).InsDrop? && InsertsIn(s, t, Pc(s', t).g) && s'.heapMap == s.heapMap)
    && (forall g :: g in s'.heapMap && g !in s.heapMap ==> InsertsIn(s, t, g))
  }

  lemma StaysSerialKeeps(s: State, s': State, t: Tid)
    requires OneInserterEach(s) && StaysSerial(s, s', t)
    ensures OneInserterEach(s')
  {
    forall u ensures NotMapped(s', u) { assert NotMapped(s, u) && NotMapped(s, t) && Apart(s, t, u); }
    forall u, v ensures Apart(s', u, v) { assert Apart(s, u, v); }
  }

  lemma MapperStaysSerial(s: State, t: Tid, op: Op, g: RegionId, h: HeapId)
    requires Pc(s, t) == InsMap(op, g, h) && NotMapped(s, t)
    ensures StaysSerial(s, StepMap(s, t, op, g, h), t)
  {
  }

  lemma ListerStaysSerial(s: State, t: Tid)
    requires CanGo(s, t) && (Pc(s, t).InsWant? || Pc(s, t).InsIn?)
    ensures StaysSerial(s, StepGo(s, t), t)
  {
  }

  lemma FreerStaysSerial(s: State, t: Tid)
    requires CanGo(s, t) && HasRecord(Pc(s, t))
    ensures StaysSerial(s, StepGo(s, t), t)
  {
  }

  lemma UnlisterStaysSerial(s: State, t: Tid)
    requires CanGo(s, t) && (Pc(s, t).DesErase? || Pc(s, t).DesWant? || Pc(s, t).DesIn?)
    ensures StaysSerial(s, StepGo(s, t), t)
  {
  }

  lemma DeleterStaysSerial(s: State, t: Tid)
    requires Pc(s, t).DesDelHeap? || Pc(s, t).DropPool?
    ensures StaysSerial(s, StepGo(s, t), t)
  {
  }

  lemma GoKeepsSerial(s: State, t: Tid)
    requires OneInserterEach(s) && CanGo(s, t)
    ensures OneInserterEach(StepGo(s, t))
  {
    assert NotMapped(s, t);
    var p := Pc(s, t);
    if p.InsMap? {
      MapperStaysSerial(s, t, p.op, p.g, p.h);
    } else if Inserts(p) {
      ListerStaysSerial(s, t);
    } else if HasRecord(p) {
      FreerStaysSerial(s, t);
    } else if p.DesDelHeap? || p.DropPool? {
      DeleterStaysSerial(s, t);
    } else {
      UnlisterStaysSerial(s, t);
    }
    StaysSerialKeeps(s, StepGo(s, t), t);
  }

  lemma StartKeepsSerial(s: State, t: Tid, op: Op, g: RegionId)
    requires OneInserterEach(s) && Enabled(s, Start(t, op, g)) && Serial(s, Start(t, op, g))
    ensures OneInserterEach(StepStart(s, t, op, g))
  {
    var s' := StepStart(s, t, op, g);
    forall u ensures NotMapped(s', u) { assert NotMapped(s, u); }
    forall u, v ensures Apart(s', u, v) {
      assert Apart(s, u, v);
      if !op.Destroy? { assert !InsertsIn(s, u, g) && !InsertsIn(s, v, g); }
    }
  }

  lemma GcMovesNobody(s: State, pick: Option<RegionId>)
    requires GcEnabled(s, pick)
    ensures StepGc(s, pick).pcs == s.pcs && StepGc(s, pick).heapMap == s.heapMap
  {
    if s.gc.WantList? || s.gc.WantInfo? || s.gc.HasBoth? {
      LockingKeepsPass(s, pick);
    } else if s.gc.Check? || s.gc.Use? || s.gc.Done? {
      UsingKeepsPass(s, pick);
    }
  }

  lemma GcKeepsSerial(s: State, pick: Option<RegionId>)
    requires OneInserterEach(s) && GcEnabled(s, pick)
    ensures OneInserterEach(StepGc(s, pick))
  {
    GcMovesNobody(s, pick);
    forall u ensures NotMapped(StepGc(s, pick), u) { assert NotMapped(s, u); }
    forall u, v ensures Apart(StepGc(s, pick), u, v) { assert Apart(s, u, v); }
  }

  lemma StepKeepsSerial(s: State, a: Step)
    requires OneInserterEach(s) && Enabled(s, a) && Serial(s, a)
    ensures OneInserterEach(Do(s, a))
  {
    match a
    case Gc(pick) => GcKeepsSerial(s, pick);
    case Start(t, op, g) => StartKeepsSerial(s, t, op, g);
    case Go(t) => GoKeepsSerial(s, t);
    case Close(t, ok) => StaysSerialKeeps(s, StepClose(s, t, ok), t);
  }

  lemma {:induction false} SerialRunKeeps(run: seq<State>, i: nat)
    requires IsSerialRun(run) && i < |run|
    ensures OneInserterEach(run[i])
  {
    if i > 0 {
      SerialRunKeeps(run, i - 1);
      assert SerialNext(run[i - 1], run[i - 1 + 1]);
      var a :| Enabled(run[i - 1], a) && Serial(run[i - 1], a) && run[i] == Do(run[i - 1], a);
      StepKeepsSerial(run[i - 1], a);
    }
  }

  /** If no insert of a region starts while the region is mapped or being inserted, every run is an allowed one:
      no heap is ever dropped. */
  lemma SerialRunsAreAllowed(run: seq<State>)
    requires IsSerialRun(run)
    ensures IsAllowedRun(run)
    ensures forall i, t :: 0 <= i < |run| ==> !Pc(run[i], t).InsShut? && !Pc(run[i], t).InsDrop?
  {
    forall i, t | 0 <= i < |run| ensures !Pc(run[i], t).InsShut? && !Pc(run[i], t).InsDrop? {
      SerialRunKeeps(run, i);
      assert NotMapped(run[i], t);
    }
    forall i | 0 <= i < |run| - 1 ensures AllowedNext(run[i], run[i + 1]) {
      assert SerialNext(run[i], run[i + 1]);
      var a :| Enabled(run[i], a) && Serial(run[i], a) && run[i + 1] == Do(run[i], a);
      assert Allowed(run[i], a);
    }
  }
}
