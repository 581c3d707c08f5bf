/**
 What the region-reference protocol guarantees over whole runs, and exactly where
 its guarantees end.
 */
module ResourceTheorems {
  import opened StatusWord
  import opened ResourceProtocol
  import opened ResourceInvariant

  ghost predicate Next(s: State, s': State) {
    exists t, c :: Enabled(s, t, c) && Allowed(s, t, c) && s' == Do(s, t, c)
  }

  /** Any interleaving of opens, closes by holders and close_all, from an empty table. */
  ghost predicate IsRun(run: seq<State>) {
    && |run| > 0 && run[0] == Init
    && forall i :: 0 <= i < |run| - 1 ==> Next(run[i], run[i + 1])
  }

  lemma NextKeepsInv(s: State, s': State)
    requires Inv(s) && Next(s, s')
    ensures Inv(s')
  {
    var t, c :| Enabled(s, t, c) && Allowed(s, t, c) && s' == Do(s, t, c);
    StepKeepsInv(s, t, c);
  }

  lemma {:induction false} RunInv(run: seq<State>, i: nat)
    requires IsRun(run) && i < |run|
    ensures Inv(run[i])
  {
    if i == 0 {
      InitInv();
    } else {
      RunInv(run, i - 1);
      assert Next(run[i - 1], run[i - 1 + 1]);
      NextKeepsInv(run[i - 1], run[i]);
    }
  }

  // -------------------------------------------------------------------------
  // Counting

  /** The opens on r that no close has consumed and no close_all ended. */
  function Outstanding(s: State, r: ResId): set<Token> {
    set k | k in s.tokens && s.tokens[k].res == r
  }

  /** Thread t took r from INACTIVE (opener) or from its last reference (last closer). */
  predicate HoldsBusy(s: State, t: Tid, r: ResId) {
    var p := Pc(s, t);
    (p.RemoteOpen? || p.Publish? || p.OpenFail? || p.CloseRelease?) && p.r == r
  }

  ghost predicate CountExact(s: State, r: ResId)
    requires r in s.res
  {
    var w := s.res[r].word;
    && w.status in {ACTIVE, INACTIVE, BUSY, RELEASED}
    && (w.status == ACTIVE ==> w.refcnt == |Outstanding(s, r)|)
    && (w.status != ACTIVE ==> w.refcnt == 0 && Outstanding(s, r) == {})
  }

  lemma HoldersAreOutstanding(s: State, r: ResId)
    requires Inv(s) && r in s.res
    ensures Outstanding(s, r) == s.res[r].holders
  {
    assert ResOk(s, r);
    forall k ensures k in Outstanding(s, r) <==> k in s.res[r].holders { assert TokenOk(s, k); }
  }

  lemma InvCounts(s: State, r: ResId)
    requires Inv(s) && r in s.res
    ensures CountExact(s, r)
  {
    HoldersAreOutstanding(s, r);
    assert ResOk(s, r);
  }

  /** In every run the count is the number of outstanding opens, and only ACTIVE resources have any. */
  lemma CountsAlwaysExact(run: seq<State>, i: nat, r: ResId)
    requires IsRun(run) && i < |run| && r in run[i].res
    ensures CountExact(run[i], r)
  {
    RunInv(run, i);
    InvCounts(run[i], r);
  }

  /** In every run a resource is BUSY exactly while one thread, and one only, has taken it over. */
  lemma BusyHasOneOwner(run: seq<State>, i: nat, r: ResId)
    requires IsRun(run) && i < |run| && r in run[i].res
    ensures run[i].res[r].word.status == BUSY <==> exists t :: HoldsBusy(run[i], t, r)
    ensures forall t, u :: HoldsBusy(run[i], t, r) && HoldsBusy(run[i], u, r) ==> t == u
  {
    var s := run[i];
    RunInv(run, i);
    assert ResOk(s, r);
    forall t: Tid | HoldsBusy(s, t, r) ensures s.res[r].word.status == BUSY && s.res[r].owner == Some(t) {
      assert ThreadOk(s, t);
    }
    if s.res[r].word.status == BUSY { assert HoldsBusy(s, s.res[r].owner.value, r); }
  }

  // -------------------------------------------------------------------------
  // The table

  lemma NextKeepsReleased(s: State, s': State, r: ResId)
    requires Inv(s) && Next(s, s') && r in s.res && s.res[r].word.status == RELEASED
    ensures r in s'.res && s'.res[r].word.status == RELEASED
  {
    var t, c :| Enabled(s, t, c) && Allowed(s, t, c) && s' == Do(s, t, c);
    StepKeepsInv(s, t, c);
  }

  predicate StaysReleased(s: State, s': State, r: ResId) {
    r in s.res && s.res[r].word.status == RELEASED ==> r in s'.res && s'.res[r].word.status == RELEASED
  }

  lemma NextStaysReleased(run: seq<State>, n: nat, r: ResId)
    requires IsRun(run) && n + 1 < |run|
    ensures StaysReleased(run[n], run[n + 1], r)
  {
    RunInv(run, n);
    assert Next(run[n], run[n + 1]);
    if !StaysReleased(run[n], run[n + 1], r) { NextKeepsReleased(run[n], run[n + 1], r); }
  }

  lemma {:induction false} StaysThroughout(run: seq<State>, i: nat, j: nat, r: ResId)
    requires i <= j < |run| && forall n :: 0 <= n < |run| - 1 ==> StaysReleased(run[n], run[n + 1], r)
    requires r in run[i].res && run[i].res[r].word.status == RELEASED
    ensures r in run[j].res && run[j].res[r].word.status == RELEASED
    decreases j
  {
    if i < j {
      StaysThroughout(run, i, j - 1, r);
      assert StaysReleased(run[j - 1], run[j - 1 + 1], r);
    }
  }

  /** RELEASED is terminal: once released, a resource is released in every later state. */
  lemma ReleasedIsTerminal(run: seq<State>, i: nat, j: nat, r: ResId)
    requires IsRun(run) && i <= j < |run|
    requires r in run[i].res && run[i].res[r].word.status == RELEASED
    ensures r in run[j].res && run[j].res[r].word.status == RELEASED
  {
    forall n | 0 <= n < |run| - 1 ensures StaysReleased(run[n], run[n + 1], r) { NextStaysReleased(run, n, r); }
    StaysThroughout(run, i, j, r);
  }

  /** A region has at most one resource that is not RELEASED, and it is the table's entry. */
  lemma OneLiveResource(run: seq<State>, i: nat, r: ResId, q: ResId)
    requires IsRun(run) && i < |run| && r in run[i].res && q in run[i].res
    requires run[i].res[r].word.status != RELEASED
    ensures run[i].res[r].region in run[i].table && run[i].table[run[i].res[r].region] == r
    ensures run[i].res[q].region == run[i].res[r].region && run[i].res[q].word.status != RELEASED ==> q == r
  {
    RunInv(run, i);
    assert ResOk(run[i], r) && ResOk(run[i], q);
  }

  /** A holder's close never misses its entry, finds the resource it opened, and that one is ACTIVE. */
  lemma CloseFindsItsResource(run: seq<State>, i: nat, t: Tid)
    requires IsRun(run) && i < |run| && Pc(run[i], t).CloseFind?
    ensures var g, k := Pc(run[i], t).region, Pc(run[i], t).k;
      && k in run[i].tokens && g in run[i].table && run[i].table[g] == run[i].tokens[k].res
      && At(run[i], run[i].table[g]).word.status == ACTIVE
  {
    RunInv(run, i);
    LookupFindsOwnResource(run[i], t);
  }

  /** ... and from then on it only reads ACTIVE with a positive count, unless close_all released it. */
  lemma CloseNeverSeesBusy(run: seq<State>, i: nat, t: Tid)
    requires IsRun(run) && i < |run|
    ensures !Pc(run[i], t).Crashed?
    ensures (Pc(run[i], t).CloseRead? || Pc(run[i], t).CloseCas?) ==>
      var w := At(run[i], Pc(run[i], t).r).word;
      if Pc(run[i], t).k in run[i].tokens then w.status == ACTIVE && 0 < w.refcnt else w.status == RELEASED
  {
    RunInv(run, i);
    assert ThreadOk(run[i], t);
    if Pc(run[i], t).CloseRead? || Pc(run[i], t).CloseCas? { CloserReadsActive(run[i], t); }
  }

  /** Every published resource is in exactly one of the table and the garbage queue; the queue
      holds only RELEASED resources and none twice, so draining it frees each at most once. */
  lemma TableXorGarbage(run: seq<State>, i: nat)
    requires IsRun(run) && i < |run|
    ensures forall r :: r in run[i].res ==> (InTable(run[i], r) <==> r !in run[i].garbage)
    ensures forall n :: 0 <= n < |run[i].garbage| ==>
      run[i].garbage[n] in run[i].res && run[i].res[run[i].garbage[n]].word.status == RELEASED
    ensures forall m, n :: 0 <= m < n < |run[i].garbage| ==> run[i].garbage[m] != run[i].garbage[n]
  {
    RunInv(run, i);
    forall r | r in run[i].res
      ensures InTable(run[i], r) <==> r !in run[i].garbage
      ensures r in run[i].garbage ==> run[i].res[r].word.status == RELEASED
    {
      assert ResOk(run[i], r);
    }
  }

  // -------------------------------------------------------------------------
  // Remote opens and closes

  function ActiveIn(s: State, g: RegionId): set<ResId> {
    set r | r in s.res && s.res[r].region == g && s.res[r].word.status == ACTIVE
  }

  /** Opened remotely and not yet closed remotely. */
  function OwedIn(s: State, g: RegionId): set<ResId> {
    set r | r in s.res && s.res[r].region == g && s.res[r].everOpened && !s.res[r].everClosed
  }

  lemma {:induction false} SubsetSize<T>(a: set<T>, b: set<T>)
    requires a <= b
    ensures |a| <= |b|
  {
    assert b == a + (b - a);
    assert |b| == |a| + |b - a|;
  }

  lemma Balance(s: State, g: RegionId)
    requires Inv(s)
    ensures Tally(s.opens, g) - Tally(s.closes, g) == |OwedIn(s, g)| + |SparesIn(s, g)|
    ensures ActiveIn(s, g) <= OwedIn(s, g)
  {
    assert TallyOk(s, g);
    forall r | r in s.res
      ensures s.res[r].everClosed ==> s.res[r].everOpened
      ensures s.res[r].word.status == ACTIVE ==> s.res[r].everOpened && !s.res[r].everClosed
    {
      assert ResOk(s, r);
    }
    assert OpenedIn(s, g) == ClosedIn(s, g) + OwedIn(s, g);
    assert ClosedIn(s, g) !! OwedIn(s, g);
  }

  /** For every region, opens minus closes never drops below its number of ACTIVE resources and spare opens. */
  lemma RemoteBalance(run: seq<State>, i: nat, g: RegionId)
    requires IsRun(run) && i < |run|
    ensures Tally(run[i].opens, g) - Tally(run[i].closes, g) >= |ActiveIn(run[i], g)| + |SparesIn(run[i], g)|
  {
    RunInv(run, i);
    Balance(run[i], g);
    SubsetSize(ActiveIn(run[i], g), OwedIn(run[i], g));
  }

  /** A remote close is only ever sent for a resource that reached ACTIVE and was never closed
      before, whether the last close or close_all sends it. */
  lemma CloseSentOnce(run: seq<State>, i: nat, t: Tid)
    requires IsRun(run) && i < |run| && (Pc(run[i], t).CloseRemote? || Pc(run[i], t).AllRemote?)
    ensures var r := Pc(run[i], t).r;
      && r in run[i].res && run[i].res[r].wasActive && !run[i].res[r].everClosed
      && forall u :: (Pc(run[i], u).CloseRemote? || Pc(run[i], u).AllRemote?) && Pc(run[i], u).r == r ==> u == t
  {
    RunInv(run, i);
    var s, r := run[i], Pc(run[i], t).r;
    assert ThreadOk(s, t) && ResOk(s, r);
    forall u | (Pc(s, u).CloseRemote? || Pc(s, u).AllRemote?) && Pc(s, u).r == r ensures u == t {
      assert ThreadOk(s, u);
    }
  }

  /** When no call is in flight, every released resource that was ever ACTIVE has been closed
      exactly once, none that failed to open was, and what is left open is what is ACTIVE and the
      spare opens, none of which anybody will use. */
  lemma QuietBalance(run: seq<State>, i: nat, g: RegionId)
    requires IsRun(run) && i < |run| && (forall t :: Pc(run[i], t).Idle?)
    ensures forall r :: r in run[i].res && run[i].res[r].word.status == RELEASED ==>
      run[i].res[r].everClosed == run[i].res[r].wasActive
    ensures forall n :: n in run[i].spares ==> run[i].spares[n].owner.None?
    ensures Tally(run[i].opens, g) - Tally(run[i].closes, g) == |ActiveIn(run[i], g)| + |SparesIn(run[i], g)|
  {
    RunInv(run, i);
    var s := run[i];
    forall r | r in s.res
      ensures s.res[r].word.status == RELEASED ==> s.res[r].everClosed == s.res[r].wasActive
      ensures s.res[r].everOpened && !s.res[r].everClosed ==> s.res[r].word.status == ACTIVE
    {
      assert ResOk(s, r);
    }
    forall n | n in s.spares ensures s.spares[n].owner.None? { assert SpareOk(s, n); }
    Balance(s, g);
    assert OwedIn(s, g) == ActiveIn(s, g);
  }

  /** From s to s', thread t's open without registration failed to make its resource ACTIVE. */
  predicate LosesCas(s: State, s': State, t: Tid) { Pc(s, t).PlainCas? && Pc(s', t).OpenRead? }

  ghost predicate NoLoss(s: State, s': State) { forall t :: !LosesCas(s, s', t) }

  predicate AllWanted(s: State) { forall n :: n in s.spares ==> s.spares[n].owner.Some? }

  lemma OtherStepsKeepSpares(s: State, t: Tid, c: Choice)
    requires Enabled(s, t, c) && !Pc(s, t).PlainRemote? && !Pc(s, t).PlainCas?
    ensures Do(s, t, c).spares == s.spares
  {
  }

  lemma RemoteKeepsWanted(s: State, t: Tid, ok: bool)
    requires Pc(s, t).PlainRemote? && AllWanted(s)
    ensures AllWanted(StepPlainRemote(s, t, ok))
  {
  }

  lemma CasKeepsWanted(s: State, t: Tid, spurious: bool)
    requires Pc(s, t).PlainCas? && AllWanted(s) && !LosesCas(s, StepPlainCas(s, t, spurious), t)
    ensures AllWanted(StepPlainCas(s, t, spurious))
  {
  }

  lemma StepKeepsWanted(s: State, t: Tid, c: Choice)
    requires Enabled(s, t, c) && AllWanted(s) && !LosesCas(s, Do(s, t, c), t)
    ensures AllWanted(Do(s, t, c))
  {
    match Pc(s, t)
    case PlainRemote(_, _, _, _) => RemoteKeepsWanted(s, t, c.ok);
    case PlainCas(_, _, _, _, _) => CasKeepsWanted(s, t, c.spurious);
    case _ => OtherStepsKeepSpares(s, t, c);
  }

  lemma NextKeepsWanted(s: State, s': State)
    requires Next(s, s') && AllWanted(s) && NoLoss(s, s')
    ensures AllWanted(s')
  {
    var t, c :| Enabled(s, t, c) && Allowed(s, t, c) && s' == Do(s, t, c);
    StepKeepsWanted(s, t, c);
  }

  lemma {:induction false} NoLossNoWaste(run: seq<State>, i: nat)
    requires IsRun(run) && i < |run|
    requires forall j :: 0 <= j < i ==> NoLoss(run[j], run[j + 1])
    ensures AllWanted(run[i])
  {
    if i > 0 {
      NoLossNoWaste(run, i - 1);
      assert Next(run[i - 1], run[i - 1 + 1]) && NoLoss(run[i - 1], run[i - 1 + 1]);
      NextKeepsWanted(run[i - 1], run[i]);
    }
  }

  /** If no open without registration ever lost its compare-and-swap, then what is left open when no
      call is in flight is exactly what is ACTIVE. */
  lemma NoLossExactBalance(run: seq<State>, i: nat, g: RegionId)
    requires IsRun(run) && i < |run| && (forall t :: Pc(run[i], t).Idle?)
    requires forall j :: 0 <= j < i ==> NoLoss(run[j], run[j + 1])
    ensures Tally(run[i].opens, g) - Tally(run[i].closes, g) == |ActiveIn(run[i], g)|
  {
    NoLossNoWaste(run, i);
    QuietBalance(run, i, g);
    assert SparesIn(run[i], g) == {};
  }

  /** A compare-and-swap that fails, also for no reason, leaves one remote open more than there are resources to
      close it for. */
  lemma LostCasWastesOpen(s: State, t: Tid, spurious: bool)
    requires Inv(s) && Pc(s, t).PlainCas? && (At(s, Pc(s, t).r).word != Pc(s, t).v || spurious)
    ensures var s' := StepPlainCas(s, t, spurious); var g := Pc(s, t).region;
      && LosesCas(s, s', t) && !AllWanted(s')
      && Tally(s'.opens, g) - Tally(s'.closes, g) > |OwedIn(s', g)|
  {
    var s' := StepPlainCas(s, t, spurious);
    assert ThreadOk(s, t);
    KeepsWasted(s, t, spurious);
    Balance(s', Pc(s, t).region);
    assert Pc(s, t).n in SparesIn(s', Pc(s, t).region);
  }

  // -------------------------------------------------------------------------
  // Where the guarantees end

  /** Counting one more reference stays exact if and only if the 32-bit count has room for it. */
  lemma CountExactIffRoom(s: State, t: Tid)
    requires Inv(s) && Pc(s, t).OpenCas? && At(s, Pc(s, t).r).word == Pc(s, t).v
    ensures Pc(s, t).r in StepOpenCas(s, t, false).res
    ensures CountExact(StepOpenCas(s, t, false), Pc(s, t).r) <==> Pc(s, t).v.refcnt + 1 < REFCNT_LIMIT
  {
    var s' := StepOpenCas(s, t, false);
    var r := Pc(s, t).r;
    assert ThreadOk(s, t) && ResOk(s, r) && TokenOk(s, s.nextToken);
    HoldersAreOutstanding(s, r);
    assert Outstanding(s', r) == Outstanding(s, r) + {s.nextToken};
    assert |Outstanding(s', r)| == |Outstanding(s, r)| + 1;
  }

  /** close_all may release a resource if and only if every reference on it was dropped or has a
      close past its table lookup. */
  lemma CloseAllSafeIffNoneClosable(s: State, t: Tid)
    requires Inv(s) && Pc(s, t).AllCas? && At(s, Pc(s, t).r).word == Pc(s, t).v
    ensures Inv(StepAllCas(s, t, false)) <==> !CanLookUp(s, Pc(s, t).r)
  {
    var s' := StepAllCas(s, t, false);
    var r := Pc(s, t).r;
    if CanLookUp(s, r) {
      var k :| k in s.tokens && s.tokens[k].res == r && Closable(s, s.tokens[k]);
      assert !TokenOk(s', k);
    } else {
      KeepsRevoke(s, t);
    }
  }

  /** An open without registration may fail if and only if nobody opened the resource meanwhile. */
  lemma PlainFailureSafeIffUnused(s: State, t: Tid)
    requires Inv(s) && Pc(s, t).PlainFail?
    ensures Inv(StepPlainFail(s, t)) <==> Unused(At(s, Pc(s, t).r).word)
  {
    var r := Pc(s, t).r;
    assert ThreadOk(s, t) && ResOk(s, r);
    if Unused(At(s, r).word) {
      KeepsPlainFail(s, t);
    } else {
      assert !ResOk(StepPlainFail(s, t), r);
    }
  }

  predicate LegalStatus(w: Word) { w.status in {ACTIVE, INACTIVE, BUSY, RELEASED} }

  /** Two undisturbed steps of a close that has just looked its region up. */
  function CloseOnce(s: State, t: Tid): State
    requires Pc(s, t).CloseRead?
  {
    var s' := StepCloseRead(s, t);
    if Pc(s', t).CloseCas? then StepCloseCas(s', t, false) else s'
  }

  /** A close over ACTIVE or BUSY writes the word it has in hand; over anything else it writes nothing. */
  lemma CloseOnceWrites(s: State, t: Tid)
    requires Pc(s, t).CloseRead?
    ensures var w := At(s, Pc(s, t).r).word;
      At(CloseOnce(s, t), Pc(s, t).r).word ==
      if w.status == ACTIVE then CloseWord(w) else if w.status == BUSY then Pc(s, t).nv else w
  {
    var CloseRead(g, k, r, nv) := Pc(s, t);
    var w, s' := At(s, r).word, StepCloseRead(s, t);
    if w.status == ACTIVE || w.status == BUSY {
      assert Pc(s', t) == CloseCas(g, k, r, w, if w.status == ACTIVE then CloseWord(w) else nv);
    }
  }

  /** Were a resource BUSY with references (as a map refresh makes it), a close would write the
      zero word: it leaves a legal status if and only if it does not read BUSY. */
  lemma CloseLegalIffNotBusy(s: State, t: Tid)
    requires Pc(s, t).CloseRead? && Pc(s, t).nv == Word(0, 0)
    requires Pc(s, t).r in s.res && LegalStatus(s.res[Pc(s, t).r].word)
    ensures LegalStatus(At(CloseOnce(s, t), Pc(s, t).r).word) <==> s.res[Pc(s, t).r].word.status != BUSY
  {
    CloseOnceWrites(s, t);
  }
}
