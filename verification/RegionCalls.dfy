/**
 What a finished create or destroy of a region has done, in every run, in terms of what the memory servers
 and the metadata service answered to it.
 */
module RegionCalls {
  import opened RegionIds

  predicate Takes(s: State, a: Step, s': State) { Enabled(s, a) && s' == Do(s, a) }

  /** A run together with the step taken in each state. */
  ghost predicate IsTrace(run: seq<State>, acts: seq<Step>) {
    && |run| == |acts| + 1 && run[0] == Init
    && forall n :: 0 <= n < |acts| ==> Takes(run[n], acts[n], run[n + 1])
  }

  lemma TraceIsRun(run: seq<State>, acts: seq<Step>)
    requires IsTrace(run, acts)
    ensures IsRun(run)
  {
    forall n | 0 <= n < |run| - 1 ensures Next(run[n], run[n + 1]) { assert Takes(run[n], acts[n], run[n + 1]); }
  }

  /** Every run is such a trace. */
  lemma {:induction false} RunHasTrace(run: seq<State>) returns (acts: seq<Step>)
    requires IsRun(run)
    ensures IsTrace(run, acts)
  {
    acts := [];
    while |acts| < |run| - 1
      invariant |acts| <= |run| - 1
      invariant forall n :: 0 <= n < |acts| ==> Takes(run[n], acts[n], run[n + 1])
    {
      var n := |acts|;
      assert Next(run[n], run[n + 1]);
      var a :| Enabled(run[n], a) && run[n + 1] == Do(run[n], a);
      acts := acts + [a];
    }
  }

  lemma TraceInv(run: seq<State>, acts: seq<Step>, m: nat)
    requires IsTrace(run, acts) && m < |run|
    ensures Inv(run[m])
  {
    TraceIsRun(run, acts);
    RunInv(run, m);
  }

  predicate ActsFor(a: Step, t: Tid) { !a.Lapse? && a.t == t }

  /** Thread t makes a call that starts with step i and is back at j. */
  ghost predicate IsCall(run: seq<State>, acts: seq<Step>, t: Tid, i: nat, j: nat) {
    && IsTrace(run, acts) && i < j < |run| && ActsFor(acts[i], t) && Pc(run[i], t).Idle? && Pc(run[j], t).Idle?
    && forall m :: i < m < j ==> !Pc(run[m], t).Idle?
  }

  /** Step a was taken after step i and before state m. */
  ghost predicate Did(acts: seq<Step>, i: nat, m: nat, a: Step) {
    exists n :: i < n < m && n < |acts| && acts[n] == a
  }

  lemma DidNext(acts: seq<Step>, i: nat, m: nat, a: Step)
    requires i < m < |acts|
    ensures Did(acts, i, m + 1, a) <==> Did(acts, i, m, a) || acts[m] == a
  {
  }

  /** A step of another thread leaves a call where it is. */
  lemma OtherKeepsPc(s: State, a: Step, s': State, t: Tid)
    requires Takes(s, a, s') && !ActsFor(a, t)
    ensures Pc(s', t) == Pc(s, t)
  {
  }

  // -------------------------------------------------------------------------
  // Creates

  ghost predicate AllCreated(acts: seq<Step>, i: nat, m: nat, t: Tid, servers: seq<Server>) {
    forall k: nat :: k < |servers| ==> Did(acts, i, m, ServerCreate(t, k, true))
  }

  /** Every server created the region and the metadata service took it. */
  ghost predicate Succeeded(acts: seq<Step>, i: nat, m: nat, t: Tid, servers: seq<Server>) {
    servers != [] && AllCreated(acts, i, m, t, servers) && Did(acts, i, m, Insert(t, true))
  }

  predicate IsFailedCleanup(a: Step, t: Tid) { a.ServerCleanup? && a.t == t && !a.success }

  ghost predicate CleanupFailed(acts: seq<Step>, i: nat, m: nat, t: Tid) {
    exists n :: i < n < m && n < |acts| && IsFailedCleanup(acts[n], t)
  }

  /** Registered for exactly its servers, or given back, or left reserved after a failed cleanup. */
  ghost predicate CreateOutcome(s: State, id: Id, servers: seq<Server>, succeeded: bool, cleanupFailed: bool) {
    if succeeded then id in s.reserved && id in s.meta && s.meta[id] == servers
    else
      && id !in s.meta
      && if servers == [] || cleanupFailed then id in s.reserved
         else id !in s.reserved && forall sv :: (sv, id) !in s.held
  }

  ghost predicate CreatingAt(acts: seq<Step>, i: nat, m: nat, t: Tid, servers: seq<Server>, ok: set<nat>) {
    && !Did(acts, i, m, Insert(t, true)) && !CleanupFailed(acts, i, m, t)
    && (forall k: nat :: k in ok ==> Did(acts, i, m, ServerCreate(t, k, true)))
    && (forall k: nat :: k < |servers| && Did(acts, i, m, ServerCreate(t, k, true)) ==> k in ok)
  }

  /** How far the create has come. */
  ghost predicate CreateAt(run: seq<State>, acts: seq<Step>, i: nat, m: nat, t: Tid, id: Id, servers: seq<Server>)
    requires i < m < |run|
  {
    match Pc(run[m], t)
    case Creating(x, l, _, ok) =>
      x == id && l == servers && servers != [] && CreatingAt(acts, i, m, t, servers, ok)
    case Inserting(x, l) =>
      && x == id && l == servers && servers != [] && AllCreated(acts, i, m, t, servers)
      && !Did(acts, i, m, Insert(t, true)) && !CleanupFailed(acts, i, m, t)
    case Cleaning(x, l, _, failed) =>
      && x == id && servers != [] && !Succeeded(acts, i, m, t, servers)
      && (failed > 0 <==> CleanupFailed(acts, i, m, t))
    case Resetting(x) =>
      x == id && servers != [] && !Succeeded(acts, i, m, t, servers) && !CleanupFailed(acts, i, m, t)
    case Idle =>
      CreateOutcome(run[m], id, servers, Succeeded(acts, i, m, t, servers), CleanupFailed(acts, i, m, t))
    case Destroying(_, _, _, _) => false
  }

  lemma CreateBegins(run: seq<State>, acts: seq<Step>, i: nat, t: Tid, id: Id, servers: seq<Server>)
    requires IsTrace(run, acts) && i < |acts| && acts[i] == StartCreate(t, id, servers)
    ensures CreateAt(run, acts, i, i + 1, t, id, servers)
  {
    assert Takes(run[i], acts[i], run[i + 1]);
    if servers == [] {
      TraceInv(run, acts, i);
      assert IdOk(run[i], id);
    }
  }

  /** Steps that say nothing about the servers' creates, the insert or a failed cleanup. */
  lemma SameAnswers(acts: seq<Step>, i: nat, m: nat, t: Tid, servers: seq<Server>)
    requires i < m < |acts| && !IsFailedCleanup(acts[m], t)
    requires !(acts[m].ServerCreate? && acts[m].t == t) && !(acts[m].Insert? && acts[m].t == t)
    ensures forall k: nat, b :: Did(acts, i, m + 1, ServerCreate(t, k, b)) <==> Did(acts, i, m, ServerCreate(t, k, b))
    ensures Did(acts, i, m + 1, Insert(t, true)) <==> Did(acts, i, m, Insert(t, true))
    ensures AllCreated(acts, i, m + 1, t, servers) <==> AllCreated(acts, i, m, t, servers)
    ensures CleanupFailed(acts, i, m + 1, t) <==> CleanupFailed(acts, i, m, t)
  {
    forall k: nat, b ensures Did(acts, i, m + 1, ServerCreate(t, k, b)) <==> Did(acts, i, m, ServerCreate(t, k, b)) {
      DidNext(acts, i, m, ServerCreate(t, k, b));
    }
    DidNext(acts, i, m, Insert(t, true));
  }

  /** One more answer of a server to the create. */
  lemma ServerAnswers(acts: seq<Step>, i: nat, m: nat, t: Tid, servers: seq<Server>, ok: set<nat>, k: nat,
                      success: bool)
    requires i < m < |acts| && CreatingAt(acts, i, m, t, servers, ok) && acts[m] == ServerCreate(t, k, success)
    ensures CreatingAt(acts, i, m + 1, t, servers, if success then ok + {k} else ok)
  {
    DidNext(acts, i, m, Insert(t, true));
    forall x: nat
      ensures Did(acts, i, m + 1, ServerCreate(t, x, true)) <==>
        Did(acts, i, m, ServerCreate(t, x, true)) || (x == k && success)
    {
      DidNext(acts, i, m, ServerCreate(t, x, true));
    }
  }

  lemma CreatingStep(run: seq<State>, acts: seq<Step>, i: nat, m: nat, t: Tid, id: Id, servers: seq<Server>)
    requires IsTrace(run, acts) && i < m < |acts| && CreateAt(run, acts, i, m, t, id, servers)
    requires Pc(run[m], t).Creating? && ActsFor(acts[m], t)
    ensures CreateAt(run, acts, i, m + 1, t, id, servers)
  {
    assert Takes(run[m], acts[m], run[m + 1]);
    if acts[m].ServerCreate? {
      ServerAnswers(acts, i, m, t, servers, Pc(run[m], t).ok, acts[m].i, acts[m].success);
    } else {
      SameAnswers(acts, i, m, t, servers);
      TraceInv(run, acts, m);
      assert ThreadOk(run[m], t);
      AllAnswered(acts, i, m, t, servers, Pc(run[m], t).ok);
    }
  }

  lemma AllAnswered(acts: seq<Step>, i: nat, m: nat, t: Tid, servers: seq<Server>, ok: set<nat>)
    requires CreatingAt(acts, i, m, t, servers, ok) && ok <= Indices(servers)
    ensures AllCreated(acts, i, m, t, servers) <==> ok == Indices(servers)
  {
    if AllCreated(acts, i, m, t, servers) {
      forall k: nat | k < |servers| ensures k in ok { assert Did(acts, i, m, ServerCreate(t, k, true)); }
    }
  }

  lemma InsertingStep(run: seq<State>, acts: seq<Step>, i: nat, m: nat, t: Tid, id: Id, servers: seq<Server>)
    requires IsTrace(run, acts) && i < m < |acts| && CreateAt(run, acts, i, m, t, id, servers)
    requires Pc(run[m], t).Inserting? && ActsFor(acts[m], t)
    ensures CreateAt(run, acts, i, m + 1, t, id, servers)
  {
    assert Takes(run[m], acts[m], run[m + 1]);
    DidNext(acts, i, m, Insert(t, true));
    TraceInv(run, acts, m);
    assert ThreadOk(run[m], t);
    forall k: nat | k < |servers| ensures Did(acts, i, m + 1, ServerCreate(t, k, true)) {
      DidNext(acts, i, m, ServerCreate(t, k, true));
    }
  }

  lemma CleanupAnswers(acts: seq<Step>, i: nat, m: nat, t: Tid, servers: seq<Server>)
    requires i < m < |acts| && acts[m].ServerCleanup? && acts[m].t == t
    ensures Succeeded(acts, i, m + 1, t, servers) <==> Succeeded(acts, i, m, t, servers)
    ensures CleanupFailed(acts, i, m + 1, t) <==> CleanupFailed(acts, i, m, t) || !acts[m].success
  {
    DidNext(acts, i, m, Insert(t, true));
    forall k: nat ensures Did(acts, i, m + 1, ServerCreate(t, k, true)) <==> Did(acts, i, m, ServerCreate(t, k, true)) {
      DidNext(acts, i, m, ServerCreate(t, k, true));
    }
    if !acts[m].success { assert IsFailedCleanup(acts[m], t); }
  }

  lemma CleaningStep(run: seq<State>, acts: seq<Step>, i: nat, m: nat, t: Tid, id: Id, servers: seq<Server>)
    requires IsTrace(run, acts) && i < m < |acts| && CreateAt(run, acts, i, m, t, id, servers)
    requires Pc(run[m], t).Cleaning? && ActsFor(acts[m], t)
    ensures CreateAt(run, acts, i, m + 1, t, id, servers)
  {
    assert Takes(run[m], acts[m], run[m + 1]);
    if acts[m].ServerCleanup? {
      CleanupAnswers(acts, i, m, t, servers);
    } else {
      SameAnswers(acts, i, m, t, servers);
      TraceInv(run, acts, m);
      assert ThreadOk(run[m], t);
    }
  }

  lemma ResettingStep(run: seq<State>, acts: seq<Step>, i: nat, m: nat, t: Tid, id: Id, servers: seq<Server>)
    requires IsTrace(run, acts) && i < m < |acts| && CreateAt(run, acts, i, m, t, id, servers)
    requires Pc(run[m], t).Resetting? && ActsFor(acts[m], t)
    ensures CreateAt(run, acts, i, m + 1, t, id, servers)
  {
    assert Takes(run[m], acts[m], run[m + 1]);
    SameAnswers(acts, i, m, t, servers);
    TraceInv(run, acts, m);
    assert ThreadOk(run[m], t);
  }

  lemma CreateStep(run: seq<State>, acts: seq<Step>, i: nat, m: nat, t: Tid, id: Id, servers: seq<Server>)
    requires IsTrace(run, acts) && i < m < |acts| && CreateAt(run, acts, i, m, t, id, servers) && !Pc(run[m], t).Idle?
    ensures CreateAt(run, acts, i, m + 1, t, id, servers)
  {
    assert Takes(run[m], acts[m], run[m + 1]);
    if !ActsFor(acts[m], t) {
      OtherKeepsPc(run[m], acts[m], run[m + 1], t);
      SameAnswers(acts, i, m, t, servers);
    } else {
      match Pc(run[m], t)
      case Creating(_, _, _, _) => CreatingStep(run, acts, i, m, t, id, servers);
      case Inserting(_, _) => InsertingStep(run, acts, i, m, t, id, servers);
      case Cleaning(_, _, _, _) => CleaningStep(run, acts, i, m, t, id, servers);
      case Resetting(_) => ResettingStep(run, acts, i, m, t, id, servers);
    }
  }

  ghost predicate CreateGoesOn(run: seq<State>, acts: seq<Step>, i: nat, m: nat, t: Tid, id: Id, servers: seq<Server>)
    requires i < m && m + 1 < |run|
  {
    CreateAt(run, acts, i, m, t, id, servers) ==> CreateAt(run, acts, i, m + 1, t, id, servers)
  }

  lemma {:induction false} CreateThroughout(run: seq<State>, acts: seq<Step>, t: Tid, id: Id, servers: seq<Server>,
                                            i: nat, m: nat)
    requires i < m < |run| && CreateAt(run, acts, i, i + 1, t, id, servers)
    requires forall n :: i < n < m ==> CreateGoesOn(run, acts, i, n, t, id, servers)
    ensures CreateAt(run, acts, i, m, t, id, servers)
  {
    if m > i + 1 {
      CreateThroughout(run, acts, t, id, servers, i, m - 1);
      assert CreateGoesOn(run, acts, i, m - 1, t, id, servers);
    }
  }

  /** In every run, a create that has returned has registered the id for exactly its servers if and only if every
      server created the region and the metadata service took it.  Otherwise the id is registered nowhere, and it is
      free again and kept by no server exactly if there are servers and none of them failed to clean up. */
  lemma FinishedCreate(run: seq<State>, acts: seq<Step>, t: Tid, id: Id, servers: seq<Server>, i: nat, j: nat)
    requires IsCall(run, acts, t, i, j) && acts[i] == StartCreate(t, id, servers)
    ensures id in run[j].meta && run[j].meta[id] == servers <==> Succeeded(acts, i, j, t, servers)
    ensures CreateOutcome(run[j], id, servers, Succeeded(acts, i, j, t, servers), CleanupFailed(acts, i, j, t))
  {
    CreateBegins(run, acts, i, t, id, servers);
    forall m | i < m < j ensures CreateGoesOn(run, acts, i, m, t, id, servers) {
      if CreateAt(run, acts, i, m, t, id, servers) { CreateStep(run, acts, i, m, t, id, servers); }
    }
    CreateThroughout(run, acts, t, id, servers, i, j);
  }

  // -------------------------------------------------------------------------
  // Destroys

  predicate IsReleasedReply(a: Step, t: Tid, k: nat) {
    a.ServerDestroy? && a.t == t && a.i == k && a.reply == Done(RELEASED)
  }

  /** Server k of the call reported RELEASED. */
  ghost predicate Reported(acts: seq<Step>, i: nat, m: nat, t: Tid, k: nat) {
    exists n :: i < n < m && n < |acts| && IsReleasedReply(acts[n], t, k)
  }

  ghost predicate AllReported(acts: seq<Step>, i: nat, m: nat, t: Tid, servers: seq<Server>) {
    forall k: nat :: k < |servers| ==> Reported(acts, i, m, t, k)
  }

  /** The region is registered no more; its id is free, and kept by no server, exactly if all reported RELEASED. */
  ghost predicate DestroyOutcome(s: State, id: Id, released: bool) {
    && id !in s.meta
    && if released then id !in s.reserved && forall sv :: (sv, id) !in s.held else id in s.reserved
  }

  ghost predicate RepliesMatch(acts: seq<Step>, i: nat, m: nat, t: Tid, todo: set<nat>, replies: map<nat, Reply>) {
    forall k: nat ::
      && (k in todo ==> k !in replies)
      && (k in replies && replies[k] == Done(RELEASED) <==> Reported(acts, i, m, t, k))
  }

  ghost predicate DestroyAt(run: seq<State>, acts: seq<Step>, i: nat, m: nat, t: Tid, id: Id, servers: seq<Server>)
    requires i < m < |run|
  {
    match Pc(run[m], t)
    case Destroying(x, l, todo, replies) => x == id && l == servers && RepliesMatch(acts, i, m, t, todo, replies)
    case Resetting(x) => x == id && AllReported(acts, i, m, t, servers)
    case Idle => DestroyOutcome(run[m], id, AllReported(acts, i, m, t, servers))
    case _ => false
  }

  lemma DestroyBegins(run: seq<State>, acts: seq<Step>, i: nat, t: Tid, id: Id)
    requires IsTrace(run, acts) && i < |acts| && acts[i] == StartDestroy(t, id)
    ensures id in run[i].meta && DestroyAt(run, acts, i, i + 1, t, id, run[i].meta[id])
  {
    assert Takes(run[i], acts[i], run[i + 1]);
  }

  lemma ReportedNext(acts: seq<Step>, i: nat, m: nat, t: Tid, k: nat)
    requires i < m < |acts|
    ensures Reported(acts, i, m + 1, t, k) <==> Reported(acts, i, m, t, k) || IsReleasedReply(acts[m], t, k)
  {
  }

  lemma SameReports(acts: seq<Step>, i: nat, m: nat, t: Tid, servers: seq<Server>)
    requires i < m < |acts| && !(acts[m].ServerDestroy? && acts[m].t == t)
    ensures forall k: nat :: Reported(acts, i, m + 1, t, k) <==> Reported(acts, i, m, t, k)
    ensures AllReported(acts, i, m + 1, t, servers) <==> AllReported(acts, i, m, t, servers)
  {
    forall k: nat ensures Reported(acts, i, m + 1, t, k) <==> Reported(acts, i, m, t, k) {
      ReportedNext(acts, i, m, t, k);
    }
    if AllReported(acts, i, m + 1, t, servers) {
      forall k: nat | k < |servers| ensures Reported(acts, i, m, t, k) { assert Reported(acts, i, m + 1, t, k); }
    } else {
      var k: nat :| k < |servers| && !Reported(acts, i, m + 1, t, k);
      assert !Reported(acts, i, m, t, k);
    }
  }

  lemma ReplyStep(acts: seq<Step>, i: nat, m: nat, t: Tid, todo: set<nat>, replies: map<nat, Reply>)
    requires i < m < |acts| && RepliesMatch(acts, i, m, t, todo, replies)
    requires acts[m].ServerDestroy? && acts[m].t == t && acts[m].i in todo
    ensures RepliesMatch(acts, i, m + 1, t, todo - {acts[m].i}, replies[acts[m].i := acts[m].reply])
  {
    forall k: nat
      ensures Reported(acts, i, m + 1, t, k) <==> Reported(acts, i, m, t, k) || IsReleasedReply(acts[m], t, k)
    {
      ReportedNext(acts, i, m, t, k);
    }
  }

  lemma DestroyingStep(run: seq<State>, acts: seq<Step>, i: nat, m: nat, t: Tid, id: Id, servers: seq<Server>)
    requires IsTrace(run, acts) && i < m < |acts| && DestroyAt(run, acts, i, m, t, id, servers)
    requires Pc(run[m], t).Destroying? && ActsFor(acts[m], t)
    ensures DestroyAt(run, acts, i, m + 1, t, id, servers)
  {
    assert Takes(run[m], acts[m], run[m + 1]);
    var p := Pc(run[m], t);
    if acts[m].ServerDestroy? {
      ReplyStep(acts, i, m, t, p.todo, p.replies);
    } else {
      TraceIsRun(run, acts);
      TraceInv(run, acts, m);
      assert ThreadOk(run[m], t);
      DestroyGivesBackIff(run, m, t);
      SameReports(acts, i, m, t, servers);
    }
  }

  lemma DestroyStep(run: seq<State>, acts: seq<Step>, i: nat, m: nat, t: Tid, id: Id, servers: seq<Server>)
    requires IsTrace(run, acts) && i < m < |acts| && DestroyAt(run, acts, i, m, t, id, servers) && !Pc(run[m], t).Idle?
    ensures DestroyAt(run, acts, i, m + 1, t, id, servers)
  {
    assert Takes(run[m], acts[m], run[m + 1]);
    if !ActsFor(acts[m], t) {
      OtherKeepsPc(run[m], acts[m], run[m + 1], t);
      SameReports(acts, i, m, t, servers);
    } else if Pc(run[m], t).Destroying? {
      DestroyingStep(run, acts, i, m, t, id, servers);
    } else {
      SameReports(acts, i, m, t, servers);
      TraceInv(run, acts, m);
      assert ThreadOk(run[m], t);
    }
  }

  ghost predicate DestroyGoesOn(run: seq<State>, acts: seq<Step>, i: nat, m: nat, t: Tid, id: Id, servers: seq<Server>)
    requires i < m && m + 1 < |run|
  {
    DestroyAt(run, acts, i, m, t, id, servers) ==> DestroyAt(run, acts, i, m + 1, t, id, servers)
  }

  lemma {:induction false} DestroyThroughout(run: seq<State>, acts: seq<Step>, t: Tid, id: Id, servers: seq<Server>,
                                             i: nat, m: nat)
    requires i < m < |run| && DestroyAt(run, acts, i, i + 1, t, id, servers)
    requires forall n :: i < n < m ==> DestroyGoesOn(run, acts, i, n, t, id, servers)
    ensures DestroyAt(run, acts, i, m, t, id, servers)
  {
    if m > i + 1 {
      DestroyThroughout(run, acts, t, id, servers, i, m - 1);
      assert DestroyGoesOn(run, acts, i, m - 1, t, id, servers);
    }
  }

  /** In every run, a destroy that has returned has taken the region out of the metadata, and given its id back,
      kept by no server, if and only if every server of the region reported RELEASED. */
  lemma FinishedDestroy(run: seq<State>, acts: seq<Step>, t: Tid, id: Id, i: nat, j: nat)
    requires IsCall(run, acts, t, i, j) && acts[i] == StartDestroy(t, id)
    ensures id in run[i].meta && DestroyOutcome(run[j], id, AllReported(acts, i, j, t, run[i].meta[id]))
  {
    DestroyBegins(run, acts, i, t, id);
    var servers := run[i].meta[id];
    forall m | i < m < j ensures DestroyGoesOn(run, acts, i, m, t, id, servers) {
      if DestroyAt(run, acts, i, m, t, id, servers) { DestroyStep(run, acts, i, m, t, id, servers); }
    }
    DestroyThroughout(run, acts, t, id, servers, i, j);
  }
}
