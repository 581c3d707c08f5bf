/**
 The inductive invariant of the region-reference protocol and its preservation by
 every step.
 */
module ResourceInvariant {
  import opened StatusWord
  import opened ResourceProtocol

  /** The thread is between taking the resource over and handing it back (or sending its close). */
  predicate Owns(p: PC, r: ResId) {
    match p
    case RemoteOpen(_, _, r') => r' == r
    case Publish(_, _, r') => r' == r
    case OpenFail(_, r') => r' == r
    case CloseRelease(_, r') => r' == r
    case CloseRemote(_, r') => r' == r
    case AllErase(_, _, r') => r' == r
    case AllRemote(_, _, r') => r' == r
    case _ => false
  }

  /** What a resource's status says about its count, its owner and its remote calls. */
  predicate PhaseOk(x: Resource, ownerPc: PC) {
    if x.word.status == ACTIVE then
      x.owner.None? && x.everOpened && !x.everClosed && x.wasActive
      && x.word.refcnt == |x.holders| < REFCNT_LIMIT
    else
      && x.holders == {} && x.word.refcnt == 0
      && if x.word.status == INACTIVE then
           x.owner.None? && !x.everOpened && !x.everClosed && !x.wasActive
         else if x.word.status == BUSY then
           && x.owner.Some? && !x.everClosed
           && x.everOpened == (ownerPc.Publish? || ownerPc.CloseRelease?)
           && x.wasActive == ownerPc.CloseRelease?
           && (ownerPc.RemoteOpen? || ownerPc.Publish? || ownerPc.OpenFail? || ownerPc.CloseRelease?)
         else
           && x.word.status == RELEASED && x.everOpened == x.wasActive
           && if x.owner.None? then x.everClosed == x.everOpened
              else x.everOpened && !x.everClosed
                   && (ownerPc.CloseRemote? || ownerPc.AllErase? || ownerPc.AllRemote?)
  }

  function OwnerPc(s: State, x: Resource): PC {
    if x.owner.Some? then Pc(s, x.owner.value) else Idle
  }

  ghost predicate ResOk(s: State, r: ResId) {
    r in s.res ==>
      var x := s.res[r];
      && r < s.nextRes
      && (x.word.status != RELEASED ==> InTable(s, r))
      && (InTable(s, r) <==> r !in s.garbage)
      && (x.owner.Some? ==> Owns(OwnerPc(s, x), r))
      && (forall k :: k in x.holders ==> k in s.tokens && s.tokens[k].res == r)
      && PhaseOk(x, OwnerPc(s, x))
  }

  predicate TokenOk(s: State, k: Token) {
    k in s.tokens ==>
      && k < s.nextToken && s.tokens[k].res in s.res && k in s.res[s.tokens[k].res].holders
      && (s.tokens[k].dropped ==> s.tokens[k].closer.None?)
  }

  /** A spare remote open is forgotten, or its thread is about to use it. */
  predicate SpareOk(s: State, n: nat) {
    n in s.spares ==>
      n < s.nextSpare && (s.spares[n].owner.Some? ==> HasSpare(Pc(s, s.spares[n].owner.value), n))
  }

  predicate HasSpare(p: PC, n: nat) { p.PlainCas? && p.n == n  }

  predicate EntryOk(s: State, g: RegionId) {
    g in s.table ==> s.table[g] in s.res && s.res[s.table[g]].region == g
  }

  predicate Known(s: State, g: RegionId, r: ResId) {
    r in s.res && s.res[r].region == g
  }

  predicate Owned(s: State, t: Tid, g: RegionId, r: ResId) {
    Known(s, g, r) && s.res[r].owner == Some(t)
  }

  /** A closing thread's reference is live and its own, or close_all revoked it. */
  predicate ClaimOk(s: State, t: Tid, k: Token, r: ResId) {
    if k in s.tokens then s.tokens[k] == Reference(r, Some(t), false)
    else k < s.nextToken && At(s, r).word.status == RELEASED
  }

  predicate Locked(s: State, t: Tid, todo: set<RegionId>) {
    s.lock == Some(t) && todo <= s.table.Keys
  }

  predicate ThreadOk(s: State, t: Tid) { PcOk(s, t, Pc(s, t)) }

  predicate PcOk(s: State, t: Tid, p: PC) {
    match p
    case Idle => true
    case Crashed => false
    case FindRead(_, _) => true
    case FindWrite(_, _) => true
    case OpenRead(g, _, r) => Known(s, g, r)
    case OpenCas(g, _, r, v) => Known(s, g, r) && v.status == ACTIVE
    case OpenInitCas(g, _, r, v) => Known(s, g, r) && v.status == INACTIVE
    case RemoteOpen(g, _, r) => Owned(s, t, g, r) && s.res[r].word.status == BUSY
    case Publish(g, _, r) => Owned(s, t, g, r) && s.res[r].word.status == BUSY
    case OpenFail(g, r) => Owned(s, t, g, r) && s.res[r].word.status == BUSY
    case PlainRemote(g, _, r, v) => Known(s, g, r) && v.status == INACTIVE
    case PlainCas(g, _, r, v, n) =>
      Known(s, g, r) && v.status == INACTIVE && n in s.spares && s.spares[n] == Spare(g, Some(t))
    case PlainFail(g, r) => Known(s, g, r)
    case CloseFind(g, k) =>
      k in s.tokens && s.tokens[k].closer == Some(t) && At(s, s.tokens[k].res).region == g
    case CloseRead(g, k, r, _) => Known(s, g, r) && ClaimOk(s, t, k, r)
    case CloseCas(g, k, r, v, nv) =>
      Known(s, g, r) && ClaimOk(s, t, k, r) && v.status == ACTIVE && 0 < v.refcnt && nv == CloseWord(v)
    case CloseRelease(g, r) => Owned(s, t, g, r) && s.res[r].word.status == BUSY
    case CloseRemote(g, r) => Owned(s, t, g, r) && s.res[r].word.status == RELEASED
    case AllLoop(todo) => Locked(s, t, todo)
    case AllRead(todo, g, r) => Locked(s, t, todo) && Known(s, g, r) && InTable(s, r) && g !in todo
    case AllCas(todo, g, r, v) =>
      Locked(s, t, todo) && Known(s, g, r) && InTable(s, r) && g !in todo && v.status == ACTIVE
    case AllErase(todo, g, r) =>
      Locked(s, t, todo) && Owned(s, t, g, r) && InTable(s, r) && g !in todo && s.res[r].word.status == RELEASED
    case AllRemote(todo, g, r) => Locked(s, t, todo) && Owned(s, t, g, r) && s.res[r].word.status == RELEASED
  }

  predicate InAll(p: PC) { p.AllLoop? || p.AllRead? || p.AllCas? || p.AllErase? || p.AllRemote? }

  predicate LockOk(s: State) { s.lock.Some? ==> InAll(Pc(s, s.lock.value)) }

  ghost predicate GarbageOk(s: State) {
    && (forall i :: 0 <= i < |s.garbage| ==> s.garbage[i] in s.res)
    && (forall i, j :: 0 <= i < j < |s.garbage| ==> s.garbage[i] != s.garbage[j])
  }

  function OpenedIn(s: State, g: RegionId): set<ResId> {
    set r | r in s.res && s.res[r].region == g && s.res[r].everOpened
  }

  function ClosedIn(s: State, g: RegionId): set<ResId> {
    set r | r in s.res && s.res[r].region == g && s.res[r].everClosed
  }

  function SparesIn(s: State, g: RegionId): set<nat> {
    set n | n in s.spares && s.spares[n].region == g
  }

  /** The remote calls made for a region are one per opened (closed) resource, and the spare opens. */
  predicate TallyOk(s: State, g: RegionId) {
    Tally(s.opens, g) == |OpenedIn(s, g)| + |SparesIn(s, g)| && Tally(s.closes, g) == |ClosedIn(s, g)|
  }

  ghost predicate Inv(s: State) {
    && (forall r :: ResOk(s, r))
    && (forall k :: TokenOk(s, k))
    && (forall n :: SpareOk(s, n))
    && (forall g :: EntryOk(s, g))
    && (forall t :: ThreadOk(s, t))
    && (forall g :: TallyOk(s, g))
    && LockOk(s)
    && GarbageOk(s)
  }

  /**
   The three things the protocol leaves to its callers: fewer than 2^32 references on one
   resource, no reference that can still be closed when close_all releases its resource, and no
   failing open without registration on a region that another thread opens meanwhile.
   */
  predicate Allowed(s: State, t: Tid, c: Choice) {
    match Pc(s, t)
    case OpenCas(_, _, r, v) => v.refcnt + 1 < REFCNT_LIMIT
    case AllCas(_, _, r, _) => !CanLookUp(s, r)
    case PlainFail(_, r) => Unused(At(s, r).word)
    case _ => true
  }

  /** Some reference on r was not dropped, and no close has looked it up yet. */
  predicate CanLookUp(s: State, r: ResId) {
    exists k :: k in s.tokens && s.tokens[k].res == r && Closable(s, s.tokens[k])
  }

  predicate Closable(s: State, k: Reference) {
    !k.dropped && (k.closer.Some? ==> Pc(s, k.closer.value).CloseFind?)
  }

  predicate Unused(w: Word) { w.status == INACTIVE || w.status == RELEASED }

  /** RELEASED is never left. */
  ghost predicate KeepsReleased(s: State, s': State) {
    forall r :: r in s.res && s.res[r].word.status == RELEASED ==>
      r in s'.res && s'.res[r].word.status == RELEASED
  }

  ghost predicate Safe(s: State, s': State) { Inv(s') && KeepsReleased(s, s') }

  lemma InitInv()
    ensures Inv(Init)
  {
    assert forall g :: OpenedIn(Init, g) == {} && ClosedIn(Init, g) == {} && SparesIn(Init, g) == {};
  }

  /** Steps that change neither a resource's region nor its remote-call record keep the tallies. */
  lemma SameTallies(s: State, s': State)
    requires forall g :: TallyOk(s, g)
    requires s'.opens == s.opens && s'.closes == s.closes && s'.spares == s.spares
    requires forall r :: r in s.res ==> r in s'.res
    requires forall r :: r in s'.res && r !in s.res ==> !s'.res[r].everOpened && !s'.res[r].everClosed
    requires forall r :: r in s.res ==>
      s'.res[r].region == s.res[r].region && s'.res[r].everOpened == s.res[r].everOpened
      && s'.res[r].everClosed == s.res[r].everClosed
    ensures forall g :: TallyOk(s', g)
  {
    forall g ensures TallyOk(s', g) {
      assert TallyOk(s, g);
      assert OpenedIn(s', g) == OpenedIn(s, g);
      assert ClosedIn(s', g) == ClosedIn(s, g);
      assert SparesIn(s', g) == SparesIn(s, g);
    }
  }

  lemma OpenedGrows(s: State, s': State, r: ResId, h: RegionId)
    requires r in s.res && !s.res[r].everOpened
    requires r in s'.res && s'.res == s.res[r := s'.res[r]]
    requires s'.res[r].region == s.res[r].region && s'.res[r].everOpened && s'.res[r].everClosed == s.res[r].everClosed
    ensures |OpenedIn(s', h)| == |OpenedIn(s, h)| + if h == s.res[r].region then 1 else 0
    ensures ClosedIn(s', h) == ClosedIn(s, h)
  {
    if h == s.res[r].region {
      assert OpenedIn(s', h) == OpenedIn(s, h) + {r};
    } else {
      assert OpenedIn(s', h) == OpenedIn(s, h);
    }
  }

  lemma TallyOpen(s: State, s': State, g: RegionId, r: ResId)
    requires forall h :: TallyOk(s, h)
    requires Known(s, g, r) && !s.res[r].everOpened
    requires r in s'.res && s'.res == s.res[r := s'.res[r]]
    requires s'.res[r].region == g && s'.res[r].everOpened && s'.res[r].everClosed == s.res[r].everClosed
    requires s'.opens == s.opens[g := Tally(s.opens, g) + 1] && s'.closes == s.closes && s'.spares == s.spares
    ensures forall h :: TallyOk(s', h)
  {
    forall h ensures TallyOk(s', h) {
      assert TallyOk(s, h);
      OpenedGrows(s, s', r, h);
      assert SparesIn(s', h) == SparesIn(s, h);
    }
  }

  lemma ClosedGrows(s: State, s': State, r: ResId, h: RegionId)
    requires r in s.res && !s.res[r].everClosed
    requires r in s'.res && s'.res == s.res[r := s'.res[r]]
    requires s'.res[r].region == s.res[r].region && s'.res[r].everClosed && s'.res[r].everOpened == s.res[r].everOpened
    ensures |ClosedIn(s', h)| == |ClosedIn(s, h)| + if h == s.res[r].region then 1 else 0
    ensures OpenedIn(s', h) == OpenedIn(s, h)
  {
    if h == s.res[r].region {
      assert ClosedIn(s', h) == ClosedIn(s, h) + {r};
    } else {
      assert ClosedIn(s', h) == ClosedIn(s, h);
    }
  }

  lemma TallyClose(s: State, s': State, g: RegionId, r: ResId)
    requires forall h :: TallyOk(s, h)
    requires Known(s, g, r) && !s.res[r].everClosed
    requires r in s'.res && s'.res == s.res[r := s'.res[r]]
    requires s'.res[r].region == g && s'.res[r].everClosed && s'.res[r].everOpened == s.res[r].everOpened
    requires s'.closes == s.closes[g := Tally(s.closes, g) + 1] && s'.opens == s.opens && s'.spares == s.spares
    ensures forall h :: TallyOk(s', h)
  {
    forall h ensures TallyOk(s', h) {
      assert TallyOk(s, h);
      ClosedGrows(s, s', r, h);
      assert SparesIn(s', h) == SparesIn(s, h);
    }
  }

  lemma MoveKeepsThread(s: State, t: Tid, p: PC, u: Tid)
    requires ThreadOk(s, u) && u != t
    ensures ThreadOk(SetPc(s, t, p), u)
  {
  }

  /** s' has the resources and the table of s; thread t may have moved. */
  ghost predicate SameTable(s: State, s': State, t: Tid) {
    && s'.res == s.res && s'.nextRes == s.nextRes && s'.table == s.table && s'.garbage == s.garbage
    && s'.nextToken == s.nextToken
    && (forall k :: k in s.tokens ==> k in s'.tokens && s'.tokens[k].res == s.tokens[k].res)
    && (forall u :: u != t ==> Pc(s', u) == Pc(s, u))
    && (forall r :: !Owns(Pc(s, t), r))
  }

  lemma FrameTable(s: State, s': State, t: Tid)
    requires Inv(s) && SameTable(s, s', t)
    ensures forall r :: ResOk(s', r)
    ensures forall g :: EntryOk(s', g)
    ensures GarbageOk(s') && KeepsReleased(s, s')
  {
    forall r ensures ResOk(s', r) { assert ResOk(s, r); }
    forall g ensures EntryOk(s', g) { assert EntryOk(s, g); }
  }

  /** A step that only moves one thread's program counter, from a point that owns nothing. */
  lemma MoveOnly(s: State, t: Tid, p: PC)
    requires Inv(s)
    requires !Pc(s, t).PlainCas? && forall r :: !Owns(Pc(s, t), r)
    requires InAll(Pc(s, t)) ==> InAll(p)
    requires ThreadOk(SetPc(s, t, p), t)
    ensures Safe(s, SetPc(s, t, p))
  {
    var s' := SetPc(s, t, p);
    forall u ensures ThreadOk(s', u) { if u != t { MoveKeepsThread(s, t, p, u); } }
    FrameTable(s, s', t);
    forall k ensures TokenOk(s', k) { assert TokenOk(s, k); }
    forall n ensures SpareOk(s', n) { assert SpareOk(s, n); }
    SameTallies(s, s');
  }

  /** s' differs from s in resource r, in thread t and in references on r only. */
  ghost predicate Touches(s: State, s': State, t: Tid, r: ResId) {
    && r in s.res && r in s'.res && s'.res[r].region == s.res[r].region
    && s'.res == s.res[r := s'.res[r]]
    && t in s'.pcs && s'.pcs == s.pcs[t := s'.pcs[t]]
    && s'.nextRes == s.nextRes && s'.table == s.table && s'.lock == s.lock && s'.garbage == s.garbage
    && (InAll(Pc(s, t)) ==> InAll(Pc(s', t)))
    && (forall q :: q != r ==> !Owns(Pc(s, t), q))
    && s.res[r].owner in {None, Some(t)} && s'.res[r].owner in {None, Some(t)}
    && (s.res[r].word.status == RELEASED ==> s'.res[r].word.status == RELEASED)
    && s.nextToken <= s'.nextToken
    && (forall k :: k in s'.tokens && k !in s.tokens ==>
          s.nextToken <= k < s'.nextToken && s'.tokens[k] == Reference(r, None, false))
    && (forall k :: k in s.tokens && k !in s'.tokens ==> s.tokens[k].res == r)
    && (forall k :: k in s.tokens && k in s'.tokens ==> s'.tokens[k] == s.tokens[k])
    && s'.nextSpare == s.nextSpare
    && s'.spares == (if Pc(s, t).PlainCas? then s.spares - {Pc(s, t).n} else s.spares)
  }

  /** Thread u's close keeps its reference, or the resource it already looked up is RELEASED. */
  predicate ClaimSurvives(s: State, s': State, u: Tid) {
    match Pc(s, u)
    case CloseFind(_, k) => k in s.tokens ==> k in s'.tokens
    case CloseRead(_, k, r, _) => k in s.tokens ==> k in s'.tokens || At(s', r).word.status == RELEASED
    case CloseCas(_, k, r, _, _) => k in s.tokens ==> k in s'.tokens || At(s', r).word.status == RELEASED
    case _ => true
  }

  lemma FrameThread(s: State, s': State, t: Tid, r: ResId, u: Tid)
    requires Inv(s) && Touches(s, s', t, r) && u != t && ClaimSurvives(s, s', u)
    ensures ThreadOk(s', u)
  {
    assert ThreadOk(s, u) && ThreadOk(s, t);
    if Pc(s, u).CloseFind? || Pc(s, u).CloseRead? || Pc(s, u).CloseCas? { assert TokenOk(s, Pc(s, u).k); }
  }

  lemma FrameThreads(s: State, s': State, t: Tid, r: ResId)
    requires Inv(s) && Touches(s, s', t, r)
    requires forall u :: u != t ==> ClaimSurvives(s, s', u)
    requires ThreadOk(s', t)
    ensures forall u :: ThreadOk(s', u)
  {
    forall u ensures ThreadOk(s', u) { if u != t { FrameThread(s, s', t, r, u); } }
  }

  lemma FrameResources(s: State, s': State, t: Tid, r: ResId)
    requires Inv(s) && Touches(s, s', t, r)
    requires ResOk(s', r)
    ensures forall q :: ResOk(s', q)
  {
    forall q ensures ResOk(s', q) { assert ResOk(s, q); }
  }

  lemma FrameRest(s: State, s': State, t: Tid, r: ResId)
    requires Inv(s) && Touches(s, s', t, r) && Linked(s, s', r)
    ensures forall k :: TokenOk(s', k)
    ensures forall h :: EntryOk(s', h)
    ensures LockOk(s') && GarbageOk(s')
  {
    forall k ensures TokenOk(s', k) { assert TokenOk(s, k); }
    forall h ensures EntryOk(s', h) { assert EntryOk(s, h); }
  }

  lemma FrameSpares(s: State, s': State, t: Tid, r: ResId)
    requires Inv(s) && Touches(s, s', t, r)
    ensures forall n :: SpareOk(s', n)
  {
    forall n ensures SpareOk(s', n) { assert SpareOk(s, n) && ThreadOk(s, t); }
  }

  /** References on r are recorded in r. */
  ghost predicate Linked(s: State, s': State, r: ResId)
    requires r in s.res && r in s'.res
  {
    && (forall k :: k in s'.tokens && k !in s.tokens ==> k in s'.res[r].holders)
    && (forall k :: k in s.res[r].holders && k in s'.tokens ==> k in s'.res[r].holders)
  }

  /** It is enough to look at the acting thread, the resource it changes and the tallies. */
  lemma Assemble(s: State, s': State, t: Tid, r: ResId)
    requires Inv(s) && Touches(s, s', t, r) && Linked(s, s', r)
    requires ThreadOk(s', t) && ResOk(s', r)
    requires forall u :: u != t ==> ClaimSurvives(s, s', u)
    requires forall g :: TallyOk(s', g)
    ensures Safe(s, s')
  {
    FrameThreads(s, s', t, r);
    FrameResources(s, s', t, r);
    FrameRest(s, s', t, r);
    FrameSpares(s, s', t, r);
  }

  lemma NoneRevoked(s: State, s': State)
    requires forall k :: k in s.tokens ==> k in s'.tokens
    ensures forall u :: ClaimSurvives(s, s', u)
  {
  }

  /** No reference ends and no remote call is made. */
  ghost predicate Quiet(s: State, s': State, t: Tid, r: ResId)
    requires r in s.res && r in s'.res
  {
    && !Pc(s, t).PlainCas? && (forall k :: k in s.tokens ==> k in s'.tokens)
    && s'.opens == s.opens && s'.closes == s.closes
    && s'.res[r].everOpened == s.res[r].everOpened && s'.res[r].everClosed == s.res[r].everClosed
  }

  lemma AssembleQuiet(s: State, s': State, t: Tid, r: ResId)
    requires Inv(s) && Touches(s, s', t, r) && Linked(s, s', r)
    requires ThreadOk(s', t) && ResOk(s', r) && Quiet(s, s', t, r)
    ensures Safe(s, s')
  {
    NoneRevoked(s, s');
    SameTallies(s, s');
    Assemble(s, s', t, r);
  }

  /** All a step needs to know of the state before it. */
  ghost predicate Local(s: State, t: Tid, r: ResId) {
    ThreadOk(s, t) && r in s.res && ResOk(s, r) && forall k :: k in s.tokens ==> k < s.nextToken
  }

  lemma InvLocal(s: State, t: Tid, r: ResId)
    requires Inv(s) && r in s.res
    ensures Local(s, t, r)
  {
    forall k | k in s.tokens ensures k < s.nextToken { assert TokenOk(s, k); }
  }

  /** What a step on resource r must show. */
  ghost predicate Acts(s: State, s': State, t: Tid, r: ResId) {
    Touches(s, s', t, r) && Linked(s, s', r) && ThreadOk(s', t) && ResOk(s', r)
  }

  lemma KeepsIdle(s: State, t: Tid, c: Choice)
    requires Inv(s) && Pc(s, t).Idle? && Enabled(s, t, c)
    ensures Safe(s, StepIdle(s, t, c))
  {
    match c
    case StartOpen(g, i) => MoveOnly(s, t, FindRead(g, i));
    case StartClose(k) => KeepsStartClose(s, t, k);
    case Drop(k) => KeepsDrop(s, t, k);
    case StartCloseAll => KeepsStartCloseAll(s, t);
  }

  lemma StartCloseKeepsThread(s: State, t: Tid, k: Token, u: Tid)
    requires ThreadOk(s, u) && Pc(s, t).Idle? && Enabled(s, t, StartClose(k)) && TokenOk(s, k)
    ensures ThreadOk(StepIdle(s, t, StartClose(k)), u)
  {
  }

  lemma KeepsStartClose(s: State, t: Tid, k: Token)
    requires Inv(s) && Pc(s, t).Idle? && Enabled(s, t, StartClose(k))
    ensures Safe(s, StepIdle(s, t, StartClose(k)))
  {
    var s' := StepIdle(s, t, StartClose(k));
    assert TokenOk(s, k);
    forall u ensures ThreadOk(s', u) { StartCloseKeepsThread(s, t, k, u); }
    FrameTable(s, s', t);
    forall j ensures TokenOk(s', j) { assert TokenOk(s, j); }
    forall n ensures SpareOk(s', n) { assert SpareOk(s, n); }
    SameTallies(s, s');
  }

  lemma KeepsDrop(s: State, t: Tid, k: Token)
    requires Inv(s) && Pc(s, t).Idle? && Enabled(s, t, Drop(k))
    ensures Safe(s, StepIdle(s, t, Drop(k)))
  {
    var s' := StepIdle(s, t, Drop(k));
    forall u ensures ThreadOk(s', u) { assert ThreadOk(s, u); }
    FrameTable(s, s', t);
    forall j ensures TokenOk(s', j) { assert TokenOk(s, j); }
    forall n ensures SpareOk(s', n) { assert SpareOk(s, n); }
    SameTallies(s, s');
  }

  lemma KeepsStartCloseAll(s: State, t: Tid)
    requires Inv(s) && Pc(s, t).Idle? && TableFree(s)
    ensures Safe(s, StepIdle(s, t, StartCloseAll))
  {
    var s' := StepIdle(s, t, StartCloseAll);
    forall u ensures ThreadOk(s', u) { assert ThreadOk(s, u); }
    FrameTable(s, s', t);
    forall k ensures TokenOk(s', k) { assert TokenOk(s, k); }
    forall n ensures SpareOk(s', n) { assert SpareOk(s, n); }
    SameTallies(s, s');
  }

  lemma KeepsFindRead(s: State, t: Tid)
    requires Inv(s) && Pc(s, t).FindRead?
    ensures Safe(s, StepFindRead(s, t))
  {
    assert EntryOk(s, Pc(s, t).region);
    MoveOnly(s, t, Pc(StepFindRead(s, t), t));
  }

  lemma KeepsFindWrite(s: State, t: Tid)
    requires Inv(s) && Pc(s, t).FindWrite? && TableFree(s)
    ensures Safe(s, StepFindWrite(s, t))
  {
    var s' := StepFindWrite(s, t);
    var FindWrite(g, i) := Pc(s, t);
    assert EntryOk(s, g);
    if g in s.table && At(s, s.table[g]).word.status != RELEASED {
      MoveOnly(s, t, Pc(s', t));
    } else {
      KeepsInsert(s, t);
    }
  }

  /** The table has no usable entry for the region t wants. */
  predicate Inserts(s: State, t: Tid) {
    && Pc(s, t).FindWrite? && TableFree(s)
    && var g := Pc(s, t).region; g in s.table ==> At(s, s.table[g]).word.status == RELEASED
  }

  lemma InsertKeepsResources(s: State, t: Tid)
    requires Inv(s) && Inserts(s, t)
    ensures forall r :: ResOk(StepFindWrite(s, t), r)
  {
    var s' := StepFindWrite(s, t);
    var g := Pc(s, t).region;
    assert EntryOk(s, g) && ResOk(s, s.nextRes);
    forall r ensures ResOk(s', r) {
      assert ResOk(s, r);
      if r in s.res { assert EntryOk(s, s.res[r].region); }
    }
  }

  lemma InsertKeepsThread(s: State, t: Tid, u: Tid)
    requires Inserts(s, t) && TableFree(s) && ThreadOk(s, u) && s.nextRes !in s.res
    requires Pc(s, u).CloseFind? ==> TokenOk(s, Pc(s, u).k)
    ensures ThreadOk(StepFindWrite(s, t), u)
  {
  }

  lemma KeepsInsert(s: State, t: Tid)
    requires Inv(s) && Inserts(s, t)
    ensures Safe(s, StepFindWrite(s, t))
  {
    var s' := StepFindWrite(s, t);
    var g := Pc(s, t).region;
    InsertKeepsResources(s, t);
    assert EntryOk(s, g) && ResOk(s, s.nextRes);
    forall u ensures ThreadOk(s', u) {
      assert ThreadOk(s, u);
      if Pc(s, u).CloseFind? { assert TokenOk(s, Pc(s, u).k); }
      InsertKeepsThread(s, t, u);
    }
    forall k ensures TokenOk(s', k) { assert TokenOk(s, k); }
    forall n ensures SpareOk(s', n) { assert SpareOk(s, n); }
    forall h ensures EntryOk(s', h) { assert EntryOk(s, h); }
    if g in s.table { assert ResOk(s, s.table[g]); }
    SameTallies(s, s');
  }

  lemma AfterReadOk(s: State, t: Tid, g: RegionId, i: Flags, r: ResId)
    requires Known(s, g, r)
    ensures PcOk(s, t, AfterRead(g, i, r, At(s, r).word))
    ensures forall q :: !Owns(AfterRead(g, i, r, At(s, r).word), q)
  {
  }

  lemma KeepsOpenRead(s: State, t: Tid)
    requires Inv(s) && Pc(s, t).OpenRead?
    ensures Safe(s, StepOpenRead(s, t))
  {
    var OpenRead(g, i, r) := Pc(s, t);
    assert ThreadOk(s, t);
    var p := AfterRead(g, i, r, At(s, r).word);
    AfterReadOk(SetPc(s, t, p), t, g, i, r);
    MoveOnly(s, t, p);
  }

  lemma KeepsOpenCas(s: State, t: Tid, spurious: bool)
    requires Inv(s) && Pc(s, t).OpenCas? && Allowed(s, t, Cas(spurious))
    ensures Safe(s, StepOpenCas(s, t, spurious))
  {
    assert ThreadOk(s, t);
    if At(s, Pc(s, t).r).word == Pc(s, t).v && !spurious {
      KeepsCount(s, t);
    } else {
      MoveOnly(s, t, Pc(StepOpenCas(s, t, spurious), t));
    }
  }

  /** One more reference and one more in the count. */
  lemma CountGrows(s: State, t: Tid)
    requires Pc(s, t).OpenCas? && Local(s, t, Pc(s, t).r) && Allowed(s, t, Cas(false))
    requires At(s, Pc(s, t).r).word == Pc(s, t).v
    ensures Acts(s, StepOpenCas(s, t, false), t, Pc(s, t).r)
  {
    CountGrowsTouches(s, t);
  }

  lemma CountGrowsTouches(s: State, t: Tid)
    requires Pc(s, t).OpenCas? && Local(s, t, Pc(s, t).r) && At(s, Pc(s, t).r).word == Pc(s, t).v
    ensures Touches(s, StepOpenCas(s, t, false), t, Pc(s, t).r)
  {
  }

  lemma KeepsCount(s: State, t: Tid)
    requires Inv(s) && Pc(s, t).OpenCas? && Allowed(s, t, Cas(false))
    requires At(s, Pc(s, t).r).word == Pc(s, t).v
    ensures Safe(s, StepOpenCas(s, t, false))
  {
    assert ThreadOk(s, t);
    InvLocal(s, t, Pc(s, t).r);
    CountGrows(s, t);
    AssembleQuiet(s, StepOpenCas(s, t, false), t, Pc(s, t).r);
  }

  lemma TakeOver(s: State, t: Tid)
    requires Pc(s, t).OpenInitCas? && Local(s, t, Pc(s, t).r) && At(s, Pc(s, t).r).word == Pc(s, t).v
    ensures Acts(s, StepOpenInitCas(s, t, false), t, Pc(s, t).r)
  {
  }

  lemma KeepsOpenInitCas(s: State, t: Tid, spurious: bool)
    requires Inv(s) && Pc(s, t).OpenInitCas?
    ensures Safe(s, StepOpenInitCas(s, t, spurious))
  {
    assert ThreadOk(s, t);
    if At(s, Pc(s, t).r).word == Pc(s, t).v && !spurious {
      InvLocal(s, t, Pc(s, t).r);
      TakeOver(s, t);
      AssembleQuiet(s, StepOpenInitCas(s, t, false), t, Pc(s, t).r);
    } else {
      MoveOnly(s, t, Pc(StepOpenInitCas(s, t, spurious), t));
    }
  }

  lemma RemoteOpened(s: State, t: Tid, ok: bool)
    requires Pc(s, t).RemoteOpen? && Local(s, t, Pc(s, t).r)
    ensures Acts(s, StepRemoteOpen(s, t, ok), t, Pc(s, t).r)
    ensures !s.res[Pc(s, t).r].everOpened
  {
  }

  lemma KeepsRemoteOpen(s: State, t: Tid, ok: bool)
    requires Inv(s) && Pc(s, t).RemoteOpen?
    ensures Safe(s, StepRemoteOpen(s, t, ok))
  {
    var s' := StepRemoteOpen(s, t, ok);
    var RemoteOpen(g, i, r) := Pc(s, t);
    assert ThreadOk(s, t);
    InvLocal(s, t, r);
    RemoteOpened(s, t, ok);
    if ok {
      TallyOpen(s, s', g, r);
      Assemble(s, s', t, r);
    } else {
      AssembleQuiet(s, s', t, r);
    }
  }

  lemma PublishedEmpty(s: State, t: Tid)
    requires Pc(s, t).Publish? && Pc(s, t).f.initOnly && Local(s, t, Pc(s, t).r)
    ensures Acts(s, StepPublish(s, t), t, Pc(s, t).r) && Quiet(s, StepPublish(s, t), t, Pc(s, t).r)
  {
  }

  lemma PublishedHeld(s: State, t: Tid)
    requires Pc(s, t).Publish? && !Pc(s, t).f.initOnly && Local(s, t, Pc(s, t).r)
    ensures Acts(s, StepPublish(s, t), t, Pc(s, t).r) && Quiet(s, StepPublish(s, t), t, Pc(s, t).r)
  {
  }

  lemma KeepsPublish(s: State, t: Tid)
    requires Inv(s) && Pc(s, t).Publish?
    ensures Safe(s, StepPublish(s, t))
  {
    assert ThreadOk(s, t);
    InvLocal(s, t, Pc(s, t).r);
    if Pc(s, t).f.initOnly { PublishedEmpty(s, t); } else { PublishedHeld(s, t); }
    AssembleQuiet(s, StepPublish(s, t), t, Pc(s, t).r);
  }

  lemma Failed(s: State, t: Tid)
    requires Pc(s, t).OpenFail? && Local(s, t, Pc(s, t).r)
    ensures Acts(s, StepOpenFail(s, t), t, Pc(s, t).r)
  {
  }

  lemma KeepsOpenFail(s: State, t: Tid)
    requires Inv(s) && Pc(s, t).OpenFail?
    ensures Safe(s, StepOpenFail(s, t))
  {
    assert ThreadOk(s, t);
    InvLocal(s, t, Pc(s, t).r);
    Failed(s, t);
    AssembleQuiet(s, StepOpenFail(s, t), t, Pc(s, t).r);
  }

  /** The remote open of an open without registration: one spare more, or on to the failure handler. */
  lemma KeepsPlainRemote(s: State, t: Tid, ok: bool)
    requires Inv(s) && Pc(s, t).PlainRemote?
    ensures Safe(s, StepPlainRemote(s, t, ok))
  {
    assert ThreadOk(s, t);
    if ok { KeepsPlainOpened(s, t); } else { MoveOnly(s, t, Pc(StepPlainRemote(s, t, ok), t)); }
  }

  lemma SparesGrow(s: State, s': State, g: RegionId, n: nat, h: RegionId)
    requires n !in s.spares && n in s'.spares && s'.spares == s.spares[n := s'.spares[n]] && s'.spares[n].region == g
    ensures |SparesIn(s', h)| == |SparesIn(s, h)| + if h == g then 1 else 0
  {
    if h == g {
      assert SparesIn(s', h) == SparesIn(s, h) + {n};
    } else {
      assert SparesIn(s', h) == SparesIn(s, h);
    }
  }

  lemma TallyPlain(s: State, t: Tid)
    requires forall h :: TallyOk(s, h)
    requires Pc(s, t).PlainRemote? && s.nextSpare !in s.spares
    ensures forall h :: TallyOk(StepPlainRemote(s, t, true), h)
  {
    var s' := StepPlainRemote(s, t, true);
    forall h ensures TallyOk(s', h) {
      assert TallyOk(s, h);
      SparesGrow(s, s', Pc(s, t).region, s.nextSpare, h);
      assert OpenedIn(s', h) == OpenedIn(s, h) && ClosedIn(s', h) == ClosedIn(s, h);
    }
  }

  lemma PlainOpenKeepsThread(s: State, t: Tid, u: Tid)
    requires ThreadOk(s, t) && ThreadOk(s, u) && Pc(s, t).PlainRemote? && s.nextSpare !in s.spares
    ensures ThreadOk(StepPlainRemote(s, t, true), u)
  {
  }

  lemma KeepsPlainOpened(s: State, t: Tid)
    requires Inv(s) && Pc(s, t).PlainRemote?
    ensures Safe(s, StepPlainRemote(s, t, true))
  {
    var s' := StepPlainRemote(s, t, true);
    assert ThreadOk(s, t) && SpareOk(s, s.nextSpare);
    forall u ensures ThreadOk(s', u) { PlainOpenKeepsThread(s, t, u); }
    FrameTable(s, s', t);
    forall k ensures TokenOk(s', k) { assert TokenOk(s, k); }
    forall n ensures SpareOk(s', n) { assert SpareOk(s, n); }
    TallyPlain(s, t);
  }

  lemma KeepsPlainCas(s: State, t: Tid, spurious: bool)
    requires Inv(s) && Pc(s, t).PlainCas?
    ensures Safe(s, StepPlainCas(s, t, spurious))
  {
    if At(s, Pc(s, t).r).word != Pc(s, t).v || spurious {
      KeepsWasted(s, t, spurious);
    } else {
      KeepsPlainWon(s, t);
    }
  }

  lemma WasteKeepsThread(s: State, t: Tid, spurious: bool, u: Tid)
    requires ThreadOk(s, t) && ThreadOk(s, u) && Pc(s, t).PlainCas?
    requires At(s, Pc(s, t).r).word != Pc(s, t).v || spurious
    ensures ThreadOk(StepPlainCas(s, t, spurious), u)
  {
  }

  /** A lost compare-and-swap leaves its remote open spare. */
  lemma KeepsWasted(s: State, t: Tid, spurious: bool)
    requires Inv(s) && Pc(s, t).PlainCas? && (At(s, Pc(s, t).r).word != Pc(s, t).v || spurious)
    ensures Safe(s, StepPlainCas(s, t, spurious))
  {
    var s' := StepPlainCas(s, t, spurious);
    assert ThreadOk(s, t);
    forall u ensures ThreadOk(s', u) { WasteKeepsThread(s, t, spurious, u); }
    FrameTable(s, s', t);
    forall k ensures TokenOk(s', k) { assert TokenOk(s, k); }
    forall n ensures SpareOk(s', n) { assert SpareOk(s, n); }
    forall g ensures TallyOk(s', g) {
      assert TallyOk(s, g);
      assert OpenedIn(s', g) == OpenedIn(s, g) && ClosedIn(s', g) == ClosedIn(s, g);
      assert SparesIn(s', g) == SparesIn(s, g);
    }
  }

  /** The thread's remote open becomes the resource's own, and no reference ends. */
  ghost predicate Wins(s: State, s': State, t: Tid)
    requires Pc(s, t).PlainCas? && Pc(s, t).r in s.res && Pc(s, t).r in s'.res
  {
    var r := Pc(s, t).r;
    && !s.res[r].everOpened && s'.res[r].everOpened && s'.res[r].everClosed == s.res[r].everClosed
    && s'.opens == s.opens && s'.closes == s.closes && (forall k :: k in s.tokens ==> k in s'.tokens)
  }

  lemma PlainWonEmpty(s: State, t: Tid)
    requires Pc(s, t).PlainCas? && Pc(s, t).f.initOnly && Local(s, t, Pc(s, t).r)
    requires At(s, Pc(s, t).r).word == Pc(s, t).v
    ensures Acts(s, StepPlainCas(s, t, false), t, Pc(s, t).r) && Wins(s, StepPlainCas(s, t, false), t)
  {
  }

  lemma PlainWonHeld(s: State, t: Tid)
    requires Pc(s, t).PlainCas? && !Pc(s, t).f.initOnly && Local(s, t, Pc(s, t).r)
    requires At(s, Pc(s, t).r).word == Pc(s, t).v
    ensures Acts(s, StepPlainCas(s, t, false), t, Pc(s, t).r) && Wins(s, StepPlainCas(s, t, false), t)
  {
  }

  /** A spare remote open becomes the resource's own. */
  lemma TallyWon(s: State, s': State, g: RegionId, r: ResId, n: nat)
    requires forall h :: TallyOk(s, h)
    requires Known(s, g, r) && !s.res[r].everOpened && n in s.spares && s.spares[n].region == g
    requires r in s'.res && s'.res == s.res[r := s'.res[r]]
    requires s'.res[r].region == g && s'.res[r].everOpened && s'.res[r].everClosed == s.res[r].everClosed
    requires s'.opens == s.opens && s'.closes == s.closes && s'.spares == s.spares - {n}
    ensures forall h :: TallyOk(s', h)
  {
    forall h ensures TallyOk(s', h) {
      assert TallyOk(s, h);
      OpenedGrows(s, s', r, h);
      assert s.spares == s'.spares[n := s.spares[n]];
      SparesGrow(s', s, g, n, h);
    }
  }

  lemma KeepsPlainWon(s: State, t: Tid)
    requires Inv(s) && Pc(s, t).PlainCas? && At(s, Pc(s, t).r).word == Pc(s, t).v
    ensures Safe(s, StepPlainCas(s, t, false))
  {
    var s' := StepPlainCas(s, t, false);
    var PlainCas(g, i, r, v, n) := Pc(s, t);
    assert ThreadOk(s, t);
    InvLocal(s, t, r);
    if i.initOnly { PlainWonEmpty(s, t); } else { PlainWonHeld(s, t); }
    AssembleWon(s, s', t, g, r, n);
  }

  lemma AssembleWon(s: State, s': State, t: Tid, g: RegionId, r: ResId, n: nat)
    requires Inv(s) && Pc(s, t).PlainCas? && Pc(s, t).r == r && Pc(s, t).n == n && r in s.res && r in s'.res
    requires Known(s, g, r) && n in s.spares && s.spares[n].region == g
    requires Acts(s, s', t, r) && Wins(s, s', t)
    ensures Safe(s, s')
  {
    TallyWon(s, s', g, r, n);
    NoneRevoked(s, s');
    Assemble(s, s', t, r);
  }

  lemma PlainFailed(s: State, t: Tid)
    requires Pc(s, t).PlainFail? && Local(s, t, Pc(s, t).r) && At(s, Pc(s, t).r).word.status == INACTIVE
    ensures Acts(s, StepPlainFail(s, t), t, Pc(s, t).r)
  {
  }

  lemma KeepsPlainFail(s: State, t: Tid)
    requires Inv(s) && Pc(s, t).PlainFail? && Unused(At(s, Pc(s, t).r).word)
    ensures Safe(s, StepPlainFail(s, t))
  {
    var r := Pc(s, t).r;
    assert ThreadOk(s, t);
    InvLocal(s, t, r);
    if s.res[r].word.status == INACTIVE {
      PlainFailed(s, t);
      AssembleQuiet(s, StepPlainFail(s, t), t, r);
    } else {
      assert s.res[r].word == Concat(RELEASED, 0);
      assert s.res[r := s.res[r]] == s.res;
      MoveOnly(s, t, Idle);
    }
  }

  /** A close looks up the very resource its reference was opened on, and that one is ACTIVE. */
  lemma LookupFindsOwnResource(s: State, t: Tid)
    requires Inv(s) && Pc(s, t).CloseFind?
    ensures var g, k := Pc(s, t).region, Pc(s, t).k;
      && k in s.tokens && g in s.table && s.table[g] == s.tokens[k].res
      && At(s, s.table[g]).word.status == ACTIVE
  {
    assert ThreadOk(s, t);
    assert TokenOk(s, Pc(s, t).k);
    assert ResOk(s, s.tokens[Pc(s, t).k].res);
  }

  lemma KeepsCloseFind(s: State, t: Tid)
    requires Inv(s) && Pc(s, t).CloseFind?
    ensures Safe(s, StepCloseFind(s, t))
  {
    LookupFindsOwnResource(s, t);
    assert ThreadOk(s, t) && TokenOk(s, Pc(s, t).k);
    MoveOnly(s, t, Pc(StepCloseFind(s, t), t));
  }

  /** While its reference is live, a close only ever reads ACTIVE with a positive count. */
  lemma CloserReadsActive(s: State, t: Tid)
    requires Inv(s) && (Pc(s, t).CloseRead? || Pc(s, t).CloseCas?)
    ensures Pc(s, t).k in s.tokens ==>
      At(s, Pc(s, t).r).word.status == ACTIVE && 0 < At(s, Pc(s, t).r).word.refcnt
    ensures Pc(s, t).k !in s.tokens ==> At(s, Pc(s, t).r).word.status == RELEASED
  {
    assert ThreadOk(s, t);
    assert TokenOk(s, Pc(s, t).k);
    assert ResOk(s, Pc(s, t).r);
  }

  lemma KeepsCloseRead(s: State, t: Tid)
    requires Inv(s) && Pc(s, t).CloseRead?
    ensures Safe(s, StepCloseRead(s, t))
  {
    assert ThreadOk(s, t);
    CloserReadsActive(s, t);
    MoveOnly(s, t, Pc(StepCloseRead(s, t), t));
  }

  lemma KeepsCloseCas(s: State, t: Tid, spurious: bool)
    requires Inv(s) && Pc(s, t).CloseCas?
    ensures Safe(s, StepCloseCas(s, t, spurious))
  {
    assert ThreadOk(s, t);
    if At(s, Pc(s, t).r).word == Pc(s, t).v && !spurious {
      KeepsUncount(s, t);
    } else {
      MoveOnly(s, t, Pc(StepCloseCas(s, t, spurious), t));
    }
  }

  /** Thread t is about to give back reference k of r. */
  ghost predicate GivesBack(s: State, t: Tid, k: Token, r: ResId) {
    && Pc(s, t).CloseCas? && Pc(s, t).k == k && Pc(s, t).r == r && Local(s, t, r)
    && At(s, r).word == Pc(s, t).v && k in s.res[r].holders
  }

  /** One reference fewer and one fewer in the count. */
  lemma CountShrinks(s: State, t: Tid, k: Token, r: ResId)
    requires GivesBack(s, t, k, r) && At(s, r).word.refcnt > 1
    ensures Acts(s, StepCloseCas(s, t, false), t, r)
  {
    assert |s.res[r].holders - {k}| == |s.res[r].holders| - 1;
  }

  /** The last one makes the closer the owner. */
  lemma CountEnds(s: State, t: Tid, k: Token, r: ResId)
    requires GivesBack(s, t, k, r) && At(s, r).word.refcnt == 1
    ensures Acts(s, StepCloseCas(s, t, false), t, r)
  {
    assert |s.res[r].holders - {k}| == |s.res[r].holders| - 1;
    assert s.res[r].holders - {k} == {};
  }

  lemma KeepsUncount(s: State, t: Tid)
    requires Inv(s) && Pc(s, t).CloseCas? && At(s, Pc(s, t).r).word == Pc(s, t).v
    ensures Safe(s, StepCloseCas(s, t, false))
  {
    var s' := StepCloseCas(s, t, false);
    var r := Pc(s, t).r;
    assert ThreadOk(s, t) && TokenOk(s, Pc(s, t).k);
    InvLocal(s, t, r);
    if s.res[r].word.refcnt == 1 { CountEnds(s, t, Pc(s, t).k, r); } else { CountShrinks(s, t, Pc(s, t).k, r); }
    forall u | u != t ensures ClaimSurvives(s, s', u) { assert ThreadOk(s, u); }
    SameTallies(s, s');
    Assemble(s, s', t, r);
  }

  lemma ReleasedFirst(s: State, t: Tid)
    requires Pc(s, t).CloseRelease? && Local(s, t, Pc(s, t).r)
    ensures Acts(s, StepCloseRelease(s, t), t, Pc(s, t).r)
  {
  }

  lemma KeepsCloseRelease(s: State, t: Tid)
    requires Inv(s) && Pc(s, t).CloseRelease?
    ensures Safe(s, StepCloseRelease(s, t))
  {
    assert ThreadOk(s, t);
    InvLocal(s, t, Pc(s, t).r);
    ReleasedFirst(s, t);
    AssembleQuiet(s, StepCloseRelease(s, t), t, Pc(s, t).r);
  }

  /** Thread t is about to send the remote close of r, and continues at p. */
  predicate Sends(s: State, t: Tid, g: RegionId, r: ResId, p: PC) {
    || (Pc(s, t) == CloseRemote(g, r) && p == Idle)
    || (p.AllLoop? && Pc(s, t) == AllRemote(p.todo, g, r))
  }

  lemma CloseSentByCloser(s: State, t: Tid, g: RegionId, r: ResId)
    requires Local(s, t, r) && Pc(s, t) == CloseRemote(g, r)
    ensures Acts(s, SendClose(s, t, g, r, Idle), t, r)
    ensures !s.res[r].everClosed
  {
  }

  lemma CloseSentByAll(s: State, t: Tid, g: RegionId, r: ResId, todo: set<RegionId>)
    requires Local(s, t, r) && Pc(s, t) == AllRemote(todo, g, r)
    ensures Acts(s, SendClose(s, t, g, r, AllLoop(todo)), t, r)
    ensures !s.res[r].everClosed
  {
  }

  lemma KeepsSendClose(s: State, t: Tid, g: RegionId, r: ResId, p: PC)
    requires Inv(s) && Sends(s, t, g, r, p)
    ensures Safe(s, SendClose(s, t, g, r, p))
  {
    var s' := SendClose(s, t, g, r, p);
    assert ThreadOk(s, t);
    InvLocal(s, t, r);
    if p.AllLoop? { CloseSentByAll(s, t, g, r, p.todo); } else { CloseSentByCloser(s, t, g, r); }
    TallyClose(s, s', g, r);
    Assemble(s, s', t, r);
  }

  lemma KeepsAllLoop(s: State, t: Tid, c: Choice)
    requires Inv(s) && Pc(s, t).AllLoop? && Enabled(s, t, c)
    ensures Safe(s, StepAllLoop(s, t, c))
  {
    var s' := StepAllLoop(s, t, c);
    assert ThreadOk(s, t);
    if Pc(s, t).todo == {} {
      forall u ensures ThreadOk(s', u) { assert ThreadOk(s, u); }
      FrameTable(s, s', t);
      forall k ensures TokenOk(s', k) { assert TokenOk(s, k); }
      forall n ensures SpareOk(s', n) { assert SpareOk(s, n); }
      SameTallies(s, s');
    } else {
      assert EntryOk(s, c.region);
      MoveOnly(s, t, Pc(s', t));
    }
  }

  lemma KeepsAllRead(s: State, t: Tid)
    requires Inv(s) && Pc(s, t).AllRead?
    ensures Safe(s, StepAllRead(s, t))
  {
    assert ThreadOk(s, t);
    MoveOnly(s, t, Pc(StepAllRead(s, t), t));
  }

  lemma KeepsAllCas(s: State, t: Tid, spurious: bool)
    requires Inv(s) && Pc(s, t).AllCas? && Allowed(s, t, Cas(spurious))
    ensures Safe(s, StepAllCas(s, t, spurious))
  {
    assert ThreadOk(s, t);
    if At(s, Pc(s, t).r).word == Pc(s, t).v && !spurious {
      KeepsRevoke(s, t);
    } else {
      MoveOnly(s, t, Pc(StepAllCas(s, t, spurious), t));
    }
  }

  lemma AllSpent(s: State, r: ResId)
    requires r in s.res && ResOk(s, r) && !CanLookUp(s, r)
    ensures s.res[r].holders <= Spent(s, r)
  {
    forall k | k in s.res[r].holders ensures k in Spent(s, r) { assert !Closable(s, s.tokens[k]); }
  }

  lemma Revoked(s: State, t: Tid)
    requires Pc(s, t).AllCas? && !CanLookUp(s, Pc(s, t).r) && Local(s, t, Pc(s, t).r)
    requires At(s, Pc(s, t).r).word == Pc(s, t).v
    ensures Acts(s, StepAllCas(s, t, false), t, Pc(s, t).r)
  {
    AllSpent(s, Pc(s, t).r);
    RevokedTouches(s, t);
  }

  lemma RevokedTouches(s: State, t: Tid)
    requires Pc(s, t).AllCas? && Local(s, t, Pc(s, t).r) && At(s, Pc(s, t).r).word == Pc(s, t).v
    ensures Touches(s, StepAllCas(s, t, false), t, Pc(s, t).r)
  {
  }

  lemma KeepsRevoke(s: State, t: Tid)
    requires Inv(s) && Pc(s, t).AllCas? && !CanLookUp(s, Pc(s, t).r)
    requires At(s, Pc(s, t).r).word == Pc(s, t).v
    ensures Safe(s, StepAllCas(s, t, false))
  {
    var s' := StepAllCas(s, t, false);
    var r := Pc(s, t).r;
    assert ThreadOk(s, t);
    InvLocal(s, t, r);
    Revoked(s, t);
    forall u | u != t ensures ClaimSurvives(s, s', u) {
      assert ThreadOk(s, u);
      if Pc(s, u).CloseFind? {
        assert TokenOk(s, Pc(s, u).k);
        assert Closable(s, s.tokens[Pc(s, u).k]);
      }
    }
    SameTallies(s, s');
    Assemble(s, s', t, r);
  }

  lemma EraseKeepsThread(s: State, t: Tid, u: Tid)
    requires Inv(s) && Pc(s, t).AllErase?
    ensures ThreadOk(StepAllErase(s, t), u)
  {
    assert ThreadOk(s, t) && ThreadOk(s, u);
  }

  lemma KeepsAllErase(s: State, t: Tid)
    requires Inv(s) && Pc(s, t).AllErase?
    ensures Safe(s, StepAllErase(s, t))
  {
    var s' := StepAllErase(s, t);
    var AllErase(todo, g, r) := Pc(s, t);
    assert ThreadOk(s, t) && ResOk(s, r);
    forall u ensures ThreadOk(s', u) { EraseKeepsThread(s, t, u); }
    forall q ensures ResOk(s', q) { assert ResOk(s, q); }
    forall k ensures TokenOk(s', k) { assert TokenOk(s, k); }
    forall n ensures SpareOk(s', n) { assert SpareOk(s, n); }
    forall h ensures EntryOk(s', h) { assert EntryOk(s, h); }
    SameTallies(s, s');
  }

  /** Every step of every thread keeps the invariant. */
  lemma StepKeepsInv(s: State, t: Tid, c: Choice)
    requires Inv(s) && Enabled(s, t, c) && Allowed(s, t, c)
    ensures Safe(s, Do(s, t, c))
  {
    match Pc(s, t)
    case Idle => KeepsIdle(s, t, c);
    case FindRead(_, _) => KeepsFindRead(s, t);
    case FindWrite(_, _) => KeepsFindWrite(s, t);
    case OpenRead(_, _, _) => KeepsOpenRead(s, t);
    case OpenCas(_, _, _, _) => KeepsOpenCas(s, t, c.spurious);
    case OpenInitCas(_, _, _, _) => KeepsOpenInitCas(s, t, c.spurious);
    case RemoteOpen(_, _, _) => KeepsRemoteOpen(s, t, c.ok);
    case Publish(_, _, _) => KeepsPublish(s, t);
    case OpenFail(_, _) => KeepsOpenFail(s, t);
    case PlainRemote(_, _, _, _) => KeepsPlainRemote(s, t, c.ok);
    case PlainCas(_, _, _, _, _) => KeepsPlainCas(s, t, c.spurious);
    case PlainFail(_, _) => KeepsPlainFail(s, t);
    case CloseFind(_, _) => KeepsCloseFind(s, t);
    case CloseRead(_, _, _, _) => KeepsCloseRead(s, t);
    case CloseCas(_, _, _, _, _) => KeepsCloseCas(s, t, c.spurious);
    case CloseRelease(_, _) => KeepsCloseRelease(s, t);
    case CloseRemote(g, r) => KeepsSendClose(s, t, g, r, Idle);
    case AllLoop(_) => KeepsAllLoop(s, t, c);
    case AllRead(_, _, _) => KeepsAllRead(s, t);
    case AllCas(_, _, _, _) => KeepsAllCas(s, t, c.spurious);
    case AllErase(_, _, _) => KeepsAllErase(s, t);
    case AllRemote(todo, g, r) => KeepsSendClose(s, t, g, r, AllLoop(todo));
  }
}
