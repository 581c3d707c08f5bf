/**
 What a finished call of the region-reference protocol has done, in every run: an open holds a reference, a close
 has given its own back, close_all has been over every entry of the table.
 */
module ResourceCalls {
  import opened StatusWord
  import opened ResourceProtocol
  import opened ResourceInvariant
  import opened ResourceTheorems

  datatype Act = Act(t: Tid, c: Choice)

  predicate Takes(s: State, a: Act, s': State) {
    Enabled(s, a.t, a.c) && Allowed(s, a.t, a.c) && s' == Do(s, a.t, a.c)
  }

  /** A run together with who took which step. */
  ghost predicate IsTrace(run: seq<State>, acts: seq<Act>) {
    && |run| == |acts| + 1 && run[0] == Init
    && forall n :: 0 <= n < |acts| ==> Takes(run[n], acts[n], run[n + 1])
  }

  lemma TraceIsRun(run: seq<State>, acts: seq<Act>)
    requires IsTrace(run, acts)
    ensures IsRun(run)
  {
    forall n | 0 <= n < |run| - 1 ensures Next(run[n], run[n + 1]) { assert Takes(run[n], acts[n], run[n + 1]); }
  }

  /** Every run is such a trace. */
  lemma {:induction false} RunHasTrace(run: seq<State>) returns (acts: seq<Act>)
    requires IsRun(run)
    ensures IsTrace(run, acts)
  {
    acts := [];
    while |acts| < |run| - 1
      invariant |acts| <= |run| - 1
      invariant forall n :: 0 <= n < |acts| ==> Takes(run[n], acts[n], run[n + 1])
    {
      var a := WhoSteps(run, |acts|);
      acts := acts + [a];
    }
  }

  lemma WhoSteps(run: seq<State>, n: nat) returns (a: Act)
    requires IsRun(run) && n + 1 < |run|
    ensures Takes(run[n], a, run[n + 1])
  {
    assert Next(run[n], run[n + 1]);
    var t, c :| Enabled(run[n], t, c) && Allowed(run[n], t, c) && run[n + 1] == Do(run[n], t, c);
    a := Act(t, c);
  }

  lemma TraceInv(run: seq<State>, acts: seq<Act>, m: nat)
    requires IsTrace(run, acts) && m < |run|
    ensures Inv(run[m])
  {
    TraceIsRun(run, acts);
    RunInv(run, m);
  }

  /** Thread t makes a call that starts with step i and is back at j. */
  ghost predicate IsCall(run: seq<State>, acts: seq<Act>, t: Tid, c: Choice, i: nat, j: nat) {
    && IsTrace(run, acts) && i < j < |run| && acts[i] == Act(t, c) && Pc(run[i], t).Idle? && Pc(run[j], t).Idle?
    && forall m :: i < m < j ==> !Pc(run[m], t).Idle?
  }

  // -------------------------------------------------------------------------
  // Opens

  /** Inside an open of region g. */
  predicate Opening(p: PC, g: RegionId, f: Flags) {
    match p
    case FindRead(x, y) => x == g && y == f
    case FindWrite(x, y) => x == g && y == f
    case OpenRead(x, y, _) => x == g && y == f
    case OpenCas(x, y, _, _) => x == g && y == f
    case OpenInitCas(x, y, _, _) => x == g && y == f
    case RemoteOpen(x, y, _) => x == g && y == f
    case Publish(x, y, _) => x == g && y == f
    case PlainRemote(x, y, _, _) => x == g && y == f
    case PlainCas(x, y, _, _, _) => x == g && y == f
    case _ => false
  }

  /** In a failure handler of such an open. */
  predicate Failing(p: PC, g: RegionId) { (p.OpenFail? || p.PlainFail?) && p.region == g }

  /** g's table entry is an ACTIVE resource of g. */
  predicate IsActive(s: State, g: RegionId) {
    g in s.table && s.table[g] in s.res && s.res[s.table[g]].region == g && s.res[s.table[g]].word.status == ACTIVE
  }

  /** From s to s' one reference came up, on the ACTIVE entry of g, and is counted there. */
  ghost predicate OneMore(s: State, s': State, g: RegionId) {
    && IsActive(s', g) && s'.res[s'.table[g]].word.refcnt > 0
    && exists k: Token :: k !in s.tokens && s'.tokens == s.tokens[k := Reference(s'.table[g], None, false)]
  }

  /** From s to s' the entry of g became ACTIVE, without a reference. */
  predicate MadeActive(s: State, s': State, g: RegionId) {
    && IsActive(s', g) && s'.res[s'.table[g]].word.refcnt == 0 && s'.tokens == s.tokens
    && !(g in s.table && s.table[g] == s'.table[g] && At(s, s.table[g]).word.status == ACTIVE)
  }

  /** The outcomes of a step inside an open of g. */
  ghost predicate OpenStep(s: State, s': State, t: Tid, c: Choice, g: RegionId, f: Flags) {
    || (Opening(Pc(s', t), g, f) && s'.tokens == s.tokens && c != Rpc(false))
    || (Failing(Pc(s', t), g) && s'.tokens == s.tokens && c == Rpc(false))
    || (Pc(s', t).Idle? && c != Rpc(false) && (OneMore(s, s', g) || (f.initOnly && MadeActive(s, s', g))))
  }

  lemma FindGoes(s: State, t: Tid, c: Choice, g: RegionId, f: Flags)
    requires Enabled(s, t, c) && Opening(Pc(s, t), g, f) && (Pc(s, t).FindRead? || Pc(s, t).FindWrite?)
    ensures OpenStep(s, Do(s, t, c), t, c, g, f)
  {
  }

  lemma ReadGoes(s: State, t: Tid, c: Choice, g: RegionId, f: Flags)
    requires Enabled(s, t, c) && Opening(Pc(s, t), g, f) && Pc(s, t).OpenRead?
    ensures OpenStep(s, Do(s, t, c), t, c, g, f)
  {
    assert Do(s, t, c) == StepOpenRead(s, t);
  }

  /** What a resource that is ACTIVE says about its region's entry. */
  lemma ActiveEntry(s: State, g: RegionId, r: ResId)
    requires Inv(s) && Known(s, g, r) && s.res[r].word.status == ACTIVE
    ensures IsActive(s, g) && s.table[g] == r
  {
    assert ResOk(s, r);
  }

  lemma CountGoes(s: State, t: Tid, c: Choice, g: RegionId, f: Flags)
    requires Inv(s) && Enabled(s, t, c) && Allowed(s, t, c) && Opening(Pc(s, t), g, f) && Pc(s, t).OpenCas?
    ensures OpenStep(s, Do(s, t, c), t, c, g, f)
  {
    var s' := StepOpenCas(s, t, c.spurious);
    var r := Pc(s, t).r;
    assert ThreadOk(s, t);
    if s.res[r].word == Pc(s, t).v && !c.spurious {
      ActiveEntry(s, g, r);
      assert TokenOk(s, s.nextToken);
      assert s'.tokens == s.tokens[s.nextToken := Reference(s'.table[g], None, false)];
    }
  }

  lemma TakeGoes(s: State, t: Tid, c: Choice, g: RegionId, f: Flags)
    requires Enabled(s, t, c) && Opening(Pc(s, t), g, f) && Pc(s, t).OpenInitCas?
    ensures OpenStep(s, Do(s, t, c), t, c, g, f)
  {
    assert Do(s, t, c) == StepOpenInitCas(s, t, c.spurious);
  }

  lemma RemoteGoes(s: State, t: Tid, c: Choice, g: RegionId, f: Flags)
    requires Enabled(s, t, c) && Opening(Pc(s, t), g, f) && Pc(s, t).RemoteOpen?
    ensures OpenStep(s, Do(s, t, c), t, c, g, f)
  {
    assert Do(s, t, c) == StepRemoteOpen(s, t, c.ok);
  }

  lemma PublishGoes(s: State, t: Tid, c: Choice, g: RegionId, f: Flags)
    requires Inv(s) && Enabled(s, t, c) && Opening(Pc(s, t), g, f) && Pc(s, t).Publish?
    ensures OpenStep(s, Do(s, t, c), t, c, g, f)
  {
    var s' := StepPublish(s, t);
    var r := Pc(s, t).r;
    assert ThreadOk(s, t) && ResOk(s, r) && TokenOk(s, s.nextToken);
    if !f.initOnly { assert s'.tokens == s.tokens[s.nextToken := Reference(s'.table[g], None, false)]; }
  }

  lemma PlainRemoteGoes(s: State, t: Tid, c: Choice, g: RegionId, f: Flags)
    requires Enabled(s, t, c) && Opening(Pc(s, t), g, f) && Pc(s, t).PlainRemote?
    ensures OpenStep(s, Do(s, t, c), t, c, g, f)
  {
    assert Do(s, t, c) == StepPlainRemote(s, t, c.ok);
  }

  lemma PlainCasGoes(s: State, t: Tid, c: Choice, g: RegionId, f: Flags)
    requires Inv(s) && Enabled(s, t, c) && Opening(Pc(s, t), g, f) && Pc(s, t).PlainCas?
    ensures OpenStep(s, Do(s, t, c), t, c, g, f)
  {
    var s' := StepPlainCas(s, t, c.spurious);
    var r := Pc(s, t).r;
    assert ThreadOk(s, t) && ResOk(s, r) && TokenOk(s, s.nextToken);
    if s.res[r].word == Pc(s, t).v && !c.spurious && !f.initOnly {
      assert s'.tokens == s.tokens[s.nextToken := Reference(s'.table[g], None, false)];
    }
  }

  lemma OpenGoes(s: State, t: Tid, c: Choice, g: RegionId, f: Flags)
    requires Inv(s) && Enabled(s, t, c) && Allowed(s, t, c) && Opening(Pc(s, t), g, f)
    ensures OpenStep(s, Do(s, t, c), t, c, g, f)
  {
    match Pc(s, t)
    case FindRead(_, _) => FindGoes(s, t, c, g, f);
    case FindWrite(_, _) => FindGoes(s, t, c, g, f);
    case OpenRead(_, _, _) => ReadGoes(s, t, c, g, f);
    case OpenCas(_, _, _, _) => CountGoes(s, t, c, g, f);
    case OpenInitCas(_, _, _, _) => TakeGoes(s, t, c, g, f);
    case RemoteOpen(_, _, _) => RemoteGoes(s, t, c, g, f);
    case Publish(_, _, _) => PublishGoes(s, t, c, g, f);
    case PlainRemote(_, _, _, _) => PlainRemoteGoes(s, t, c, g, f);
    case PlainCas(_, _, _, _, _) => PlainCasGoes(s, t, c, g, f);
  }

  lemma StepFrames(s: State, t: Tid, c: Choice)
    requires Enabled(s, t, c)
    ensures Framed(s, Do(s, t, c), t)
  {
  }

  lemma FailureEnds(s: State, t: Tid, c: Choice, g: RegionId)
    requires Enabled(s, t, c) && Failing(Pc(s, t), g)
    ensures var s' := Do(s, t, c);
      Pc(s', t).Idle? && s'.tokens == s.tokens && At(s', Pc(s, t).r).word.status == RELEASED
  {
  }

  /** The memory server refused the open. */
  ghost predicate Refused(acts: seq<Act>, i: nat, m: nat, t: Tid) {
    exists n :: i < n < m && n < |acts| && acts[n] == Act(t, Rpc(false))
  }

  /** Thread t's steps from i up to m add and end no reference. */
  ghost predicate KeepsTokens(run: seq<State>, acts: seq<Act>, i: nat, m: nat, t: Tid)
    requires m < |run| == |acts| + 1
  {
    forall n :: i <= n < m && acts[n].t == t ==> run[n + 1].tokens == run[n].tokens
  }

  ghost predicate OpenOutcome(s: State, s': State, g: RegionId, f: Flags, refused: bool) {
    if refused then s'.tokens == s.tokens else OneMore(s, s', g) || (f.initOnly && MadeActive(s, s', g))
  }

  /** How far the open has come. */
  ghost predicate OpenAt(run: seq<State>, acts: seq<Act>, i: nat, m: nat, t: Tid, g: RegionId, f: Flags)
    requires i < m < |run| == |acts| + 1
  {
    if Pc(run[m], t).Idle?
    then
      && OpenOutcome(run[m - 1], run[m], g, f, Refused(acts, i, m, t))
      && KeepsTokens(run, acts, i, m - 1, t) && acts[m - 1].t == t
    else
      && KeepsTokens(run, acts, i, m, t)
      && if Refused(acts, i, m, t) then Failing(Pc(run[m], t), g) else Opening(Pc(run[m], t), g, f)
  }

  lemma OpenBegins(run: seq<State>, acts: seq<Act>, i: nat, t: Tid, g: RegionId, f: Flags)
    requires IsTrace(run, acts) && i < |acts| && acts[i] == Act(t, StartOpen(g, f)) && Pc(run[i], t).Idle?
    ensures OpenAt(run, acts, i, i + 1, t, g, f)
  {
    assert Takes(run[i], acts[i], run[i + 1]);
  }

  lemma RefusedNext(acts: seq<Act>, i: nat, m: nat, t: Tid)
    requires i < m < |acts|
    ensures Refused(acts, i, m + 1, t) <==> Refused(acts, i, m, t) || acts[m] == Act(t, Rpc(false))
  {
  }

  lemma OpenGoesOn(run: seq<State>, acts: seq<Act>, i: nat, m: nat, t: Tid, g: RegionId, f: Flags)
    requires IsTrace(run, acts) && i < m < |acts| && OpenAt(run, acts, i, m, t, g, f) && !Pc(run[m], t).Idle?
    ensures OpenAt(run, acts, i, m + 1, t, g, f)
  {
    assert Takes(run[m], acts[m], run[m + 1]);
    RefusedNext(acts, i, m, t);
    var c := acts[m].c;
    if acts[m].t != t {
      StepFrames(run[m], acts[m].t, c);
    } else if Refused(acts, i, m, t) {
      FailureEnds(run[m], t, c, g);
    } else {
      TraceInv(run, acts, m);
      OpenGoes(run[m], t, c, g, f);
    }
  }

  ghost predicate OpenKept(run: seq<State>, acts: seq<Act>, i: nat, m: nat, t: Tid, g: RegionId, f: Flags)
    requires i < m && m + 1 < |run| == |acts| + 1
  {
    OpenAt(run, acts, i, m, t, g, f) ==> OpenAt(run, acts, i, m + 1, t, g, f)
  }

  lemma {:induction false} OpenThroughout(run: seq<State>, acts: seq<Act>, t: Tid, g: RegionId, f: Flags,
                                          i: nat, m: nat)
    requires i < m < |run| == |acts| + 1 && OpenAt(run, acts, i, i + 1, t, g, f)
    requires forall n :: i < n < m ==> OpenKept(run, acts, i, n, t, g, f)
    ensures OpenAt(run, acts, i, m, t, g, f)
  {
    if m > i + 1 {
      OpenThroughout(run, acts, t, g, f, i, m - 1);
      assert OpenKept(run, acts, i, m - 1, t, g, f);
    }
  }

  /** In every run, an open of g that the memory server did not refuse returns with exactly one reference more,
      counted on the ACTIVE entry of g.  The only exception is FAM_INIT_ONLY, when it made that entry ACTIVE itself. */
  lemma FinishedOpen(run: seq<State>, acts: seq<Act>, t: Tid, g: RegionId, f: Flags, i: nat, j: nat)
    requires IsCall(run, acts, t, StartOpen(g, f), i, j)
    ensures OpenOutcome(run[j - 1], run[j], g, f, Refused(acts, i, j, t)) && acts[j - 1].t == t
    ensures KeepsTokens(run, acts, i, j - 1, t)
  {
    OpenBegins(run, acts, i, t, g, f);
    forall m | i < m < j ensures OpenKept(run, acts, i, m, t, g, f) {
      if OpenAt(run, acts, i, m, t, g, f) { OpenGoesOn(run, acts, i, m, t, g, f); }
    }
    OpenThroughout(run, acts, t, g, f, i, j);
  }

  // -------------------------------------------------------------------------
  // Closes

  /** Inside a close of reference k on resource r, before or after its reference is given back. */
  predicate Closing(s: State, p: PC, k: Token, r: ResId) {
    match p
    case CloseFind(_, x) => x == k && k in s.tokens && s.tokens[k].res == r
    case CloseRead(_, x, y, _) => x == k && y == r
    case CloseCas(_, x, y, _, _) => x == k && y == r
    case _ => false
  }

  predicate Releasing(s: State, p: PC, k: Token, r: ResId) {
    (p.CloseRelease? || p.CloseRemote?) && p.r == r && k !in s.tokens
  }

  /** Reference k is gone, and r is still held by others, or released and, if this close was the last, closed
      remotely. */
  predicate CloseOutcome(s: State, k: Token, r: ResId, last: bool) {
    && k !in s.tokens && r in s.res
    && if s.res[r].word.status == ACTIVE then !last && s.res[r].word.refcnt > 0
       else s.res[r].word.status == RELEASED && (last ==> s.res[r].everClosed)
  }

  lemma LookupGoes(s: State, t: Tid, c: Choice, k: Token, r: ResId)
    requires Inv(s) && Enabled(s, t, c) && Closing(s, Pc(s, t), k, r) && Pc(s, t).CloseFind?
    ensures Closing(Do(s, t, c), Pc(Do(s, t, c), t), k, r)
  {
    LookupFindsOwnResource(s, t);
  }

  lemma CloseReadGoes(s: State, t: Tid, c: Choice, k: Token, r: ResId)
    requires Inv(s) && Enabled(s, t, c) && Closing(s, Pc(s, t), k, r) && Pc(s, t).CloseRead?
    ensures var s' := Do(s, t, c);
      Closing(s', Pc(s', t), k, r) || (Pc(s', t).Idle? && CloseOutcome(s', k, r, false))
  {
    assert ThreadOk(s, t);
    CloserReadsActive(s, t);
    assert Do(s, t, c) == StepCloseRead(s, t);
  }

  lemma GiveBackGoes(s: State, t: Tid, c: Choice, k: Token, r: ResId)
    requires Inv(s) && Enabled(s, t, c) && Closing(s, Pc(s, t), k, r) && Pc(s, t).CloseCas?
    ensures var s' := Do(s, t, c);
      || Closing(s', Pc(s', t), k, r)
      || (Pc(s', t).CloseRelease? && Releasing(s', Pc(s', t), k, r))
      || (Pc(s', t).Idle? && CloseOutcome(s', k, r, false))
  {
    assert ThreadOk(s, t) && ResOk(s, r);
    assert Do(s, t, c) == StepCloseCas(s, t, c.spurious);
  }

  lemma ReleaseGoes(s: State, t: Tid, c: Choice, k: Token, r: ResId)
    requires Inv(s) && Enabled(s, t, c) && Releasing(s, Pc(s, t), k, r)
    ensures var s' := Do(s, t, c);
      || (Pc(s', t).CloseRemote? && Releasing(s', Pc(s', t), k, r))
      || (Pc(s', t).Idle? && CloseOutcome(s', k, r, true))
  {
    assert ThreadOk(s, t);
  }

  /** The close turned out to be the last. */
  ghost predicate WasLast(run: seq<State>, i: nat, m: nat, t: Tid)
    requires m < |run|
  {
    exists n :: i < n <= m && Pc(run[n], t).CloseRelease?
  }

  ghost predicate CloseAt(run: seq<State>, i: nat, m: nat, t: Tid, k: Token, r: ResId)
    requires i < m < |run|
  {
    if Pc(run[m], t).Idle? then CloseOutcome(run[m], k, r, WasLast(run, i, m, t))
    else
      && k < run[m].nextToken
      && if WasLast(run, i, m, t) then Releasing(run[m], Pc(run[m], t), k, r)
         else Closing(run[m], Pc(run[m], t), k, r)
  }

  lemma CloseBegins(run: seq<State>, acts: seq<Act>, i: nat, t: Tid, k: Token)
    requires IsTrace(run, acts) && i < |acts| && acts[i] == Act(t, StartClose(k)) && Pc(run[i], t).Idle?
    ensures k in run[i].tokens && CloseAt(run, i, i + 1, t, k, run[i].tokens[k].res)
  {
    assert Takes(run[i], acts[i], run[i + 1]);
    TraceInv(run, acts, i);
    assert TokenOk(run[i], k);
  }

  lemma LastNext(run: seq<State>, i: nat, m: nat, t: Tid)
    requires i < m && m + 1 < |run|
    ensures WasLast(run, i, m + 1, t) <==> WasLast(run, i, m, t) || Pc(run[m + 1], t).CloseRelease?
  {
  }

  lemma OtherClose(s: State, a: Act, s': State, t: Tid, k: Token, r: ResId)
    requires Takes(s, a, s') && a.t != t && Inv(s') && k < s.nextToken
    ensures Pc(s', t) == Pc(s, t) && k < s'.nextToken
    ensures Closing(s, Pc(s, t), k, r) ==> Closing(s', Pc(s', t), k, r)
    ensures Releasing(s, Pc(s, t), k, r) ==> Releasing(s', Pc(s', t), k, r)
  {
    StepFrames(s, a.t, a.c);
    assert ThreadOk(s', t);
  }

  lemma CloseGoesOn(run: seq<State>, acts: seq<Act>, i: nat, m: nat, t: Tid, k: Token, r: ResId)
    requires IsTrace(run, acts) && i < m < |acts| && CloseAt(run, i, m, t, k, r) && !Pc(run[m], t).Idle?
    ensures CloseAt(run, i, m + 1, t, k, r)
  {
    assert Takes(run[m], acts[m], run[m + 1]);
    LastNext(run, i, m, t);
    TraceInv(run, acts, m);
    TraceInv(run, acts, m + 1);
    var c := acts[m].c;
    StepFrames(run[m], acts[m].t, c);
    if acts[m].t != t {
      OtherClose(run[m], acts[m], run[m + 1], t, k, r);
    } else {
      CloseMoves(run[m], t, c, k, r);
    }
  }

  lemma CloseMoves(s: State, t: Tid, c: Choice, k: Token, r: ResId)
    requires Inv(s) && Enabled(s, t, c) && (Closing(s, Pc(s, t), k, r) || Releasing(s, Pc(s, t), k, r))
    ensures var s', first := Do(s, t, c), Closing(s, Pc(s, t), k, r);
      || (first && Closing(s', Pc(s', t), k, r))
      || (Releasing(s', Pc(s', t), k, r) && (first ==> Pc(s', t).CloseRelease?))
      || (Pc(s', t).Idle? && CloseOutcome(s', k, r, !first))
  {
    match Pc(s, t)
    case CloseFind(_, _) => LookupGoes(s, t, c, k, r);
    case CloseRead(_, _, _, _) => CloseReadGoes(s, t, c, k, r);
    case CloseCas(_, _, _, _, _) => GiveBackGoes(s, t, c, k, r);
    case _ => ReleaseGoes(s, t, c, k, r);
  }

  ghost predicate CloseKept(run: seq<State>, i: nat, m: nat, t: Tid, k: Token, r: ResId)
    requires i < m && m + 1 < |run|
  {
    CloseAt(run, i, m, t, k, r) ==> CloseAt(run, i, m + 1, t, k, r)
  }

  lemma {:induction false} CloseThroughout(run: seq<State>, t: Tid, k: Token, r: ResId, i: nat, m: nat)
    requires i < m < |run| && CloseAt(run, i, i + 1, t, k, r)
    requires forall n :: i < n < m ==> CloseKept(run, i, n, t, k, r)
    ensures CloseAt(run, i, m, t, k, r)
  {
    if m > i + 1 {
      CloseThroughout(run, t, k, r, i, m - 1);
      assert CloseKept(run, i, m - 1, t, k, r);
    }
  }

  /** In every run, a close that has returned has given its reference back.  Its resource is then still held by
      others, or it is RELEASED, and if this close was the last it has been closed remotely. */
  lemma FinishedClose(run: seq<State>, acts: seq<Act>, t: Tid, k: Token, i: nat, j: nat)
    requires IsCall(run, acts, t, StartClose(k), i, j)
    ensures k in run[i].tokens && CloseOutcome(run[j], k, run[i].tokens[k].res, WasLast(run, i, j, t))
  {
    CloseBegins(run, acts, i, t, k);
    var r := run[i].tokens[k].res;
    forall m | i < m < j ensures CloseKept(run, i, m, t, k, r) {
      if CloseAt(run, i, m, t, k, r) { CloseGoesOn(run, acts, i, m, t, k, r); }
    }
    CloseThroughout(run, t, k, r, i, j);
  }

  // -------------------------------------------------------------------------
  // close_all

  /** The regions a close_all at p has still to decide about. */
  function Ahead(p: PC): set<RegionId> {
    match p
    case AllLoop(todo) => todo
    case AllRead(todo, g, _) => todo + {g}
    case AllCas(todo, g, _, _) => todo + {g}
    case AllErase(todo, _, _) => todo
    case AllRemote(todo, _, _) => todo
    case _ => {}
  }

  /** Resource r was not ACTIVE in some state from i to m. */
  ghost predicate WasNotActive(run: seq<State>, i: nat, m: nat, r: ResId)
    requires m < |run|
  {
    exists n :: i <= n <= m && At(run[n], r).word.status != ACTIVE
  }

  /** So it was with every entry of the table at i but those of `ahead`. */
  ghost predicate Decided(run: seq<State>, i: nat, m: nat, ahead: set<RegionId>)
    requires i <= m < |run|
  {
    forall g :: g in run[i].table && g !in ahead ==> WasNotActive(run, i, m, run[i].table[g])
  }

  /** The entries of those regions are as they were. */
  ghost predicate SameEntries(s: State, s': State, regions: set<RegionId>) {
    forall g :: g in regions ==> g in s.table && g in s'.table && s'.table[g] == s.table[g]
  }

  predicate AtEntry(s: State, p: PC) {
    p.AllRead? || p.AllCas? ==> p.region in s.table && s.table[p.region] == p.r
  }

  ghost predicate CloseAllAt(run: seq<State>, i: nat, m: nat, t: Tid)
    requires i <= m < |run|
  {
    var p := Pc(run[m], t);
    && (p.Idle? || InAll(p)) && Decided(run, i, m, Ahead(p))
    && SameEntries(run[i], run[m], Ahead(p)) && AtEntry(run[i], p)
  }

  lemma CloseAllBegins(run: seq<State>, acts: seq<Act>, i: nat, t: Tid)
    requires IsTrace(run, acts) && i < |acts| && acts[i] == Act(t, StartCloseAll) && Pc(run[i], t).Idle?
    ensures CloseAllAt(run, i, i + 1, t)
  {
    assert Takes(run[i], acts[i], run[i + 1]);
  }

  lemma DecidedNext(run: seq<State>, i: nat, m: nat, ahead: set<RegionId>)
    requires i <= m && m + 1 < |run| && Decided(run, i, m, ahead)
    ensures Decided(run, i, m + 1, ahead)
  {
    forall g | g in run[i].table && g !in ahead ensures WasNotActive(run, i, m + 1, run[i].table[g]) {
      var r := run[i].table[g];
      assert WasNotActive(run, i, m, r);
      var n :| i <= n <= m && At(run[n], r).word.status != ACTIVE;
    }
  }

  lemma OneDecided(run: seq<State>, i: nat, m: nat, ahead: set<RegionId>, g: RegionId)
    requires i <= m < |run| && Decided(run, i, m, ahead + {g}) && g in run[i].table
    requires At(run[m], run[i].table[g]).word.status != ACTIVE
    ensures Decided(run, i, m, ahead)
  {
    forall h | h in run[i].table && h !in ahead ensures WasNotActive(run, i, m, run[i].table[h]) {
      if h != g { assert h !in ahead + {g}; }
    }
  }

  /** While t has the table locked nobody else changes it. */
  lemma OtherKeepsTable(s: State, u: Tid, c: Choice, t: Tid)
    requires Inv(s) && Enabled(s, u, c) && s.lock == Some(t) && u != t
    ensures Do(s, u, c).table == s.table
  {
    assert ThreadOk(s, u);
  }

  /** A step of close_all from p to p': it may have decided about the region it was at, which then is not ACTIVE. */
  ghost predicate Sweeps(s: State, s': State, p: PC, p': PC) {
    && (p'.Idle? || InAll(p')) && Ahead(p') <= Ahead(p)
    && (forall g :: g in Ahead(p) && g !in Ahead(p') ==>
          (p.AllRead? || p.AllCas?) && g == p.region && At(s', p.r).word.status != ACTIVE)
    && (forall g :: g in Ahead(p') && g in s.table ==> g in s'.table && s'.table[g] == s.table[g])
    && (p'.AllRead? || p'.AllCas? ==>
          || (p'.region in Ahead(p) && p'.region in s.table && p'.r == s.table[p'.region])
          || ((p.AllRead? || p.AllCas?) && p'.region == p.region && p'.r == p.r))
  }

  lemma LoopSweeps(s: State, t: Tid, c: Choice)
    requires Inv(s) && Enabled(s, t, c) && Pc(s, t).AllLoop?
    ensures Sweeps(s, StepAllLoop(s, t, c), Pc(s, t), Pc(StepAllLoop(s, t, c), t))
  {
    assert ThreadOk(s, t);
  }

  lemma ReadSweeps(s: State, t: Tid)
    requires Pc(s, t).AllRead?
    ensures Sweeps(s, StepAllRead(s, t), Pc(s, t), Pc(StepAllRead(s, t), t))
  {
  }

  lemma CasSweeps(s: State, t: Tid, spurious: bool)
    requires Pc(s, t).AllCas?
    ensures Sweeps(s, StepAllCas(s, t, spurious), Pc(s, t), Pc(StepAllCas(s, t, spurious), t))
  {
    if At(s, Pc(s, t).r).word == Pc(s, t).v && !spurious { CasReleases(s, t); } else { CasRetries(s, t, spurious); }
  }

  lemma CasReleases(s: State, t: Tid)
    requires Pc(s, t).AllCas? && At(s, Pc(s, t).r).word == Pc(s, t).v
    ensures Sweeps(s, StepAllCas(s, t, false), Pc(s, t), Pc(StepAllCas(s, t, false), t))
  {
  }

  lemma CasRetries(s: State, t: Tid, spurious: bool)
    requires Pc(s, t).AllCas? && (At(s, Pc(s, t).r).word != Pc(s, t).v || spurious)
    ensures Sweeps(s, StepAllCas(s, t, spurious), Pc(s, t), Pc(StepAllCas(s, t, spurious), t))
  {
  }

  lemma SendSweeps(s: State, t: Tid, todo: set<RegionId>, g: RegionId, r: ResId)
    requires Pc(s, t) == AllRemote(todo, g, r)
    ensures Sweeps(s, SendClose(s, t, g, r, AllLoop(todo)), Pc(s, t), AllLoop(todo))
  {
  }

  lemma EraseSweeps(s: State, t: Tid)
    requires Inv(s) && Pc(s, t).AllErase?
    ensures Sweeps(s, StepAllErase(s, t), Pc(s, t), Pc(StepAllErase(s, t), t))
  {
    assert ThreadOk(s, t);
  }

  lemma CloseAllSweeps(s: State, t: Tid, c: Choice)
    requires Inv(s) && Enabled(s, t, c) && InAll(Pc(s, t))
    ensures Sweeps(s, Do(s, t, c), Pc(s, t), Pc(Do(s, t, c), t))
  {
    match Pc(s, t)
    case AllLoop(_) => LoopSweeps(s, t, c);
    case AllRead(_, _, _) => ReadSweeps(s, t);
    case AllCas(_, _, _, _) => CasSweeps(s, t, c.spurious);
    case AllErase(_, _, _) => EraseSweeps(s, t);
    case AllRemote(todo, g, r) => SendSweeps(s, t, todo, g, r);
  }

  lemma SweptFurther(run: seq<State>, i: nat, m: nat, t: Tid)
    requires i <= m && m + 1 < |run| && CloseAllAt(run, i, m, t)
    requires Sweeps(run[m], run[m + 1], Pc(run[m], t), Pc(run[m + 1], t))
    ensures CloseAllAt(run, i, m + 1, t)
  {
    var p, p' := Pc(run[m], t), Pc(run[m + 1], t);
    DecidedNext(run, i, m, Ahead(p));
    if Ahead(p') != Ahead(p) {
      assert Ahead(p') + {p.region} == Ahead(p);
      OneDecided(run, i, m + 1, Ahead(p'), p.region);
    }
  }

  lemma CloseAllGoesOn(run: seq<State>, acts: seq<Act>, i: nat, m: nat, t: Tid)
    requires IsTrace(run, acts) && i < m < |acts| && CloseAllAt(run, i, m, t) && !Pc(run[m], t).Idle?
    ensures CloseAllAt(run, i, m + 1, t)
  {
    assert Takes(run[m], acts[m], run[m + 1]);
    if acts[m].t != t {
      TraceInv(run, acts, m);
      assert ThreadOk(run[m], t);
      StepFrames(run[m], acts[m].t, acts[m].c);
      OtherKeepsTable(run[m], acts[m].t, acts[m].c, t);
      DecidedNext(run, i, m, Ahead(Pc(run[m], t)));
    } else {
      TraceInv(run, acts, m);
      CloseAllSweeps(run[m], t, acts[m].c);
      SweptFurther(run, i, m, t);
    }
  }

  ghost predicate CloseAllKept(run: seq<State>, i: nat, m: nat, t: Tid)
    requires i <= m && m + 1 < |run|
  {
    CloseAllAt(run, i, m, t) ==> CloseAllAt(run, i, m + 1, t)
  }

  lemma {:induction false} CloseAllThroughout(run: seq<State>, t: Tid, i: nat, m: nat)
    requires i < m < |run| && CloseAllAt(run, i, i + 1, t)
    requires forall n :: i < n < m ==> CloseAllKept(run, i, n, t)
    ensures CloseAllAt(run, i, m, t)
  {
    if m > i + 1 {
      CloseAllThroughout(run, t, i, m - 1);
      assert CloseAllKept(run, i, m - 1, t);
    }
  }

  /** In every run, when close_all returns, every entry of the table it started with was not ACTIVE in some state of the
      call: it released the entry, or found nothing to release. */
  lemma FinishedCloseAll(run: seq<State>, acts: seq<Act>, t: Tid, i: nat, j: nat, g: RegionId)
    requires IsCall(run, acts, t, StartCloseAll, i, j) && g in run[i].table
    ensures exists n :: i <= n <= j && At(run[n], run[i].table[g]).word.status != ACTIVE
  {
    CloseAllBegins(run, acts, i, t);
    forall m | i < m < j ensures CloseAllKept(run, i, m, t) {
      if CloseAllAt(run, i, m, t) { CloseAllGoesOn(run, acts, i, m, t); }
    }
    CloseAllThroughout(run, t, i, j);
    assert WasNotActive(run, i, j, run[i].table[g]);
  }
}
