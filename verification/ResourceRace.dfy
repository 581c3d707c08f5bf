/**
 Runs that break the protocol's guarantees: close_all while somebody still means to close
 a reference, and an open without registration that fails while another one succeeds.
 */
module ResourceRace {
  import opened StatusWord
  import opened ResourceProtocol
  import opened ResourceInvariant
  import opened ResourceTheorems

  /** Any close_all of the run visits the regions in the given order. */
  predicate InOrder(s: State, t: Tid, c: Choice, order: seq<RegionId>) {
    c.Pick? && Pc(s, t).AllLoop? ==>
      0 < |Pc(s, t).todo| <= |order| && c.region == order[|order| - |Pc(s, t).todo|]
  }

  ghost predicate Step(s: State, s': State, order: seq<RegionId>) {
    exists t, c :: Enabled(s, t, c) && InOrder(s, t, c, order) && s' == Do(s, t, c)
  }

  /** Consecutive steps of the protocol, whatever its callers do, from s to s'. */
  ghost predicate Leads(run: seq<State>, s: State, s': State, order: seq<RegionId>) {
    && run != [] && run[0] == s && run[|run| - 1] == s'
    && forall i :: 0 <= i < |run| - 1 ==> Step(run[i], run[i + 1], order)
  }

  lemma Follow(run: seq<State>, s: State, s': State, order: seq<RegionId>, t: Tid, c: Choice)
    returns (run': seq<State>)
    requires Leads(run, s, s', order) && Enabled(s', t, c) && InOrder(s', t, c, order)
    ensures Leads(run', s, Do(s', t, c), order)
  {
    run' := run + [Do(s', t, c)];
    assert Step(s', Do(s', t, c), order);
    forall i | 0 <= i < |run'| - 1 ensures Step(run'[i], run'[i + 1], order) {
      if i < |run| - 1 { assert Step(run[i], run[i + 1], order); }
    }
  }

  // -------------------------------------------------------------------------
  // close_all and a reference that can still be closed

  /** Thread t will close reference k of region g: it is about to look the region up, or has not called yet. */
  predicate Pending(s: State, t: Tid, k: Token, g: RegionId) {
    && k < s.nextToken
    && (|| Pc(s, t) == CloseFind(g, k)
        || (&& Pc(s, t).Idle? && k in s.tokens && At(s, s.tokens[k].res).region == g
            && s.tokens[k].closer.None? && !s.tokens[k].dropped))
  }

  /** Thread t means to close reference k of region g; thread u runs close_all, which visits the regions in
      some order. */
  datatype Contest = Contest(t: Tid, k: Token, g: RegionId, u: Tid, order: seq<RegionId>)

  /** The order lists every region of todo once. */
  ghost predicate Lists(order: seq<RegionId>, todo: set<RegionId>) {
    && (forall i, j :: 0 <= i < j < |order| ==> order[i] != order[j])
    && (forall h :: h in todo <==> h in order)
  }

  lemma {:induction false} ListsSize(order: seq<RegionId>, todo: set<RegionId>)
    requires Lists(order, todo)
    ensures |todo| == |order|
  {
    if order == [] {
      assert todo == {};
    } else {
      ListsTail(order, todo);
      ListsSize(order[1..], todo - {order[0]});
    }
  }

  lemma ListsTail(order: seq<RegionId>, todo: set<RegionId>)
    requires Lists(order, todo) && order != []
    ensures order[0] in todo && Lists(order[1..], todo - {order[0]})
  {
    forall h ensures h in todo - {order[0]} <==> h in order[1..] {
      if h in order[1..] {
        var i :| 0 <= i < |order| - 1 && order[1..][i] == h;
        assert order[i + 1] == h;
      }
    }
  }

  predicate EntriesMatch(s: State) {
    forall h :: h in s.table ==> s.table[h] in s.res && s.res[s.table[h]].region == h
  }

  /** Thread u runs close_all at p with the regions of todo ahead of it; g is one of them, or erased,
      or being erased. */
  predicate Racing(s: State, q: Contest, todo: set<RegionId>, p: PC) {
    && q.t != q.u && Pending(s, q.t, q.k, q.g) && Pc(s, q.u) == p && s.lock == Some(q.u)
    && EntriesMatch(s) && todo <= s.table.Keys
    && (q.g in todo ==> At(s, s.table[q.g]).word.status == ACTIVE)
    && (q.g !in todo && q.g in s.table ==> p.AllErase? && p.region == q.g)
  }

  /** close_all picks the region, and reads its word. */
  lemma Picking(run: seq<State>, s: State, s0: State, q: Contest, todo: set<RegionId>, h: RegionId)
    returns (run': seq<State>, s': State)
    requires Leads(run, s, s0, q.order) && Racing(s0, q, todo, AllLoop(todo))
    requires h in todo && InOrder(s0, q.u, Pick(h), q.order)
    ensures Leads(run', s, s', q.order) && h in s'.table && Racing(s', q, todo, AllRead(todo - {h}, h, s'.table[h]))
  {
    run' := Follow(run, s, s0, q.order, q.u, Pick(h));
    s' := Do(s0, q.u, Pick(h));
  }

  /** A region that is not ACTIVE is left alone. */
  lemma Skipping(run: seq<State>, s: State, s0: State, q: Contest, todo: set<RegionId>, h: RegionId)
    returns (run': seq<State>, s': State)
    requires h in todo && h in s0.table && At(s0, s0.table[h]).word.status != ACTIVE
    requires Leads(run, s, s0, q.order) && Racing(s0, q, todo, AllRead(todo - {h}, h, s0.table[h]))
    ensures Leads(run', s, s', q.order) && Racing(s', q, todo - {h}, AllLoop(todo - {h}))
  {
    run' := Follow(run, s, s0, q.order, q.u, Go);
    s' := Do(s0, q.u, Go);
  }

  lemma Reading(run: seq<State>, s: State, s0: State, q: Contest, todo: set<RegionId>, h: RegionId)
    returns (run': seq<State>, s': State)
    requires h in todo && h in s0.table && At(s0, s0.table[h]).word.status == ACTIVE
    requires Leads(run, s, s0, q.order) && Racing(s0, q, todo, AllRead(todo - {h}, h, s0.table[h]))
    ensures Leads(run', s, s', q.order) && h in s'.table
    ensures var r := s'.table[h]; Racing(s', q, todo, AllCas(todo - {h}, h, r, At(s', r).word))
  {
    run' := Follow(run, s, s0, q.order, q.u, Go);
    s' := Do(s0, q.u, Go);
  }

  /** The compare-and-swap releases the region's resource but not the reference. */
  lemma Releasing(run: seq<State>, s: State, s0: State, q: Contest, todo: set<RegionId>, h: RegionId)
    returns (run': seq<State>, s': State, r: ResId)
    requires h in todo && h in s0.table && Leads(run, s, s0, q.order)
    requires var r := s0.table[h]; Racing(s0, q, todo, AllCas(todo - {h}, h, r, At(s0, r).word))
    ensures Leads(run', s, s', q.order) && Racing(s', q, todo - {h}, AllErase(todo - {h}, h, r))
  {
    r := s0.table[h];
    run' := Follow(run, s, s0, q.order, q.u, Cas(false));
    s' := Do(s0, q.u, Cas(false));
    assert Pending(s', q.t, q.k, q.g);
  }

  lemma Erasing(run: seq<State>, s: State, s0: State, q: Contest, todo: set<RegionId>, h: RegionId, r: ResId)
    returns (run': seq<State>, s': State)
    requires Leads(run, s, s0, q.order) && h !in todo && Racing(s0, q, todo, AllErase(todo, h, r))
    ensures Leads(run', s, s', q.order) && Racing(s', q, todo, AllRemote(todo, h, r))
  {
    run' := Follow(run, s, s0, q.order, q.u, Go);
    s' := Do(s0, q.u, Go);
  }

  lemma Sending(run: seq<State>, s: State, s0: State, q: Contest, todo: set<RegionId>, h: RegionId, r: ResId)
    returns (run': seq<State>, s': State)
    requires Leads(run, s, s0, q.order) && Racing(s0, q, todo, AllRemote(todo, h, r))
    ensures Leads(run', s, s', q.order) && Racing(s', q, todo, AllLoop(todo))
  {
    run' := Follow(run, s, s0, q.order, q.u, Go);
    s' := Do(s0, q.u, Go);
  }

  /** Over any table and in any order, close_all goes through to its end. */
  lemma {:induction false} Sweeping(run: seq<State>, s: State, s0: State, q: Contest, n: nat, todo: set<RegionId>)
    returns (run': seq<State>, s': State)
    requires Leads(run, s, s0, q.order) && Racing(s0, q, todo, AllLoop(todo))
    requires n <= |q.order| && Lists(q.order[n..], todo)
    ensures Leads(run', s, s', q.order) && Racing(s', q, {}, AllLoop({}))
    decreases |q.order| - n
  {
    run', s' := run, s0;
    ListsSize(q.order[n..], todo);
    if n == |q.order| {
      assert todo == {};
    } else {
      var h := q.order[n];
      ListsTail(q.order[n..], todo);
      assert q.order[n..][1..] == q.order[n + 1..];
      run', s' := Picking(run', s, s', q, todo, h);
      if At(s', s'.table[h]).word.status == ACTIVE {
        var r;
        run', s' := Reading(run', s, s', q, todo, h);
        run', s', r := Releasing(run', s, s', q, todo, h);
        run', s' := Erasing(run', s, s', q, todo - {h}, h, r);
        run', s' := Sending(run', s, s', q, todo - {h}, h, r);
      } else {
        run', s' := Skipping(run', s, s', q, todo, h);
      }
      run', s' := Sweeping(run', s, s', q, n + 1, todo - {h});
    }
  }

  /** close_all is over, g is out of the table, and thread t still means to close its reference. */
  predicate Swept(s: State, q: Contest) {
    q.t != q.u && Pending(s, q.t, q.k, q.g) && Pc(s, q.u).Idle? && TableFree(s) && q.g !in s.table
  }

  lemma PendingIsActive(s: State, t: Tid, k: Token, g: RegionId)
    requires Inv(s) && Pending(s, t, k, g)
    ensures g in s.table && At(s, s.table[g]).word.status == ACTIVE
  {
    assert ThreadOk(s, t) && TokenOk(s, k);
    assert ResOk(s, s.tokens[k].res);
  }

  /** Thread u may start close_all while thread t can still close its reference; the order is any of the table. */
  ghost predicate Meets(s: State, q: Contest) {
    && q.t != q.u && Pending(s, q.t, q.k, q.g) && Pc(s, q.u).Idle? && TableFree(s)
    && Lists(q.order, s.table.Keys)
  }

  lemma Starting(s: State, q: Contest) returns (run: seq<State>, s': State)
    requires Inv(s) && Meets(s, q)
    ensures Leads(run, s, s', q.order) && Racing(s', q, s.table.Keys, AllLoop(s.table.Keys))
  {
    PendingIsActive(s, q.t, q.k, q.g);
    forall h | h in s.table ensures s.table[h] in s.res && s.res[s.table[h]].region == h { assert EntryOk(s, h); }
    run := Follow([s], s, s, q.order, q.u, StartCloseAll);
    s' := Do(s, q.u, StartCloseAll);
  }

  lemma CloseAllSweeps(s: State, q: Contest) returns (run: seq<State>, s': State)
    requires Inv(s) && Meets(s, q)
    ensures Leads(run, s, s', q.order) && Swept(s', q)
  {
    run, s' := Starting(s, q);
    assert q.order[0..] == q.order;
    run, s' := Sweeping(run, s, s', q, 0, s.table.Keys);
    run := Follow(run, s, s', q.order, q.u, Go);
    s' := Do(s', q.u, Go);
  }

  /** If it has not yet, thread t calls close. */
  lemma Calling(run: seq<State>, s: State, s0: State, q: Contest) returns (run': seq<State>, s': State)
    requires Leads(run, s, s0, q.order) && Pending(s0, q.t, q.k, q.g)
    ensures Leads(run', s, s', q.order) && Pc(s', q.t) == CloseFind(q.g, q.k)
    ensures s'.table == s0.table && s'.lock == s0.lock && s'.res == s0.res
    ensures forall j :: j != q.k && j in s0.tokens ==> j in s'.tokens && s'.tokens[j] == s0.tokens[j]
  {
    run', s' := run, s0;
    if Pc(s0, q.t).Idle? {
      run' := Follow(run, s, s0, q.order, q.t, StartClose(q.k));
      s' := Do(s0, q.t, StartClose(q.k));
    }
  }

  /** From every state of the protocol, over any table and in any order: if a holder can still close its reference, then
      once close_all has run the holder's close dereferences a missing entry. */
  lemma CloseAllStrandsClose(s: State, q: Contest) returns (run: seq<State>, s': State)
    requires Inv(s) && Meets(s, q)
    ensures Leads(run, s, s', q.order) && Pc(s', q.t).Crashed?
  {
    run, s' := CloseAllSweeps(s, q);
    run, s' := Calling(run, s, s', q);
    run := Follow(run, s, s', q.order, q.t, Go);
    s' := Do(s', q.t, Go);
  }

  /** Thread u has opened g again and is at p; its new resource n carries the word w. */
  predicate Reopening(s: State, q: Contest, n: ResId, w: Word, p: PC) {
    && q.t != q.u && Pending(s, q.t, q.k, q.g) && Pc(s, q.u) == p && TableFree(s)
    && q.g in s.table && s.table[q.g] == n && n in s.res && s.res[n].region == q.g && s.res[n].word == w
  }

  const REGISTER := Flags(false, true)

  /** Thread u does not find g in the table, ... */
  lemma Missing(run: seq<State>, s: State, s0: State, q: Contest) returns (run': seq<State>, s': State)
    requires Leads(run, s, s0, q.order) && Swept(s0, q)
    ensures Leads(run', s, s', q.order) && q.t != q.u && Pending(s', q.t, q.k, q.g) && TableFree(s')
    ensures Pc(s', q.u) == FindWrite(q.g, REGISTER) && q.g !in s'.table
  {
    run' := Follow(run, s, s0, q.order, q.u, StartOpen(q.g, REGISTER));
    var s1 := Do(s0, q.u, StartOpen(q.g, REGISTER));
    assert Pc(s1, q.u) == FindRead(q.g, REGISTER);
    run' := Follow(run', s, s1, q.order, q.u, Go);
    s' := Do(s1, q.u, Go);
  }

  /** ... and enters a new resource. */
  lemma Creating(run: seq<State>, s: State, s0: State, q: Contest) returns (run': seq<State>, s': State, n: ResId)
    requires Leads(run, s, s0, q.order) && Swept(s0, q)
    ensures Leads(run', s, s', q.order) && Reopening(s', q, n, Word(INACTIVE, 0), OpenRead(q.g, REGISTER, n))
  {
    var s1;
    run', s1 := Missing(run, s, s0, q);
    n := s1.nextRes;
    run' := Follow(run', s, s1, q.order, q.u, Go);
    s' := Do(s1, q.u, Go);
    assert s' == StepFindWrite(s1, q.u);
  }

  lemma Taking(run: seq<State>, s: State, s0: State, q: Contest, n: ResId) returns (run': seq<State>, s': State)
    requires Leads(run, s, s0, q.order) && Reopening(s0, q, n, Word(INACTIVE, 0), OpenRead(q.g, REGISTER, n))
    ensures Leads(run', s, s', q.order) && Reopening(s', q, n, Word(BUSY, 0), RemoteOpen(q.g, REGISTER, n))
  {
    run' := Follow(run, s, s0, q.order, q.u, Go);
    var s1 := Do(s0, q.u, Go);
    assert Reopening(s1, q, n, Word(INACTIVE, 0), OpenInitCas(q.g, REGISTER, n, Word(INACTIVE, 0)));
    run' := Follow(run', s, s1, q.order, q.u, Cas(false));
    s' := Do(s1, q.u, Cas(false));
  }

  /** Now u holds a reference on the new resource. */
  lemma Publishing(run: seq<State>, s: State, s0: State, q: Contest, n: ResId)
    returns (run': seq<State>, s': State, j: Token)
    requires Leads(run, s, s0, q.order) && Reopening(s0, q, n, Word(BUSY, 0), RemoteOpen(q.g, REGISTER, n))
    ensures Leads(run', s, s', q.order) && Reopening(s', q, n, Word(ACTIVE, 1), Idle)
    ensures j != q.k && j in s'.tokens && s'.tokens[j].res == n
  {
    run' := Follow(run, s, s0, q.order, q.u, Rpc(true));
    var s1 := Do(s0, q.u, Rpc(true));
    assert Reopening(s1, q, n, Word(BUSY, 0), Publish(q.g, REGISTER, n));
    j := s1.nextToken;
    run' := Follow(run', s, s1, q.order, q.u, Go);
    s' := Do(s1, q.u, Go);
  }

  /** The late close looks up the new resource and takes its only count. */
  lemma Stealing(run: seq<State>, s: State, s0: State, q: Contest, n: ResId, j: Token)
    returns (run': seq<State>, s': State)
    requires Leads(run, s, s0, q.order) && Reopening(s0, q, n, Word(ACTIVE, 1), Idle)
    requires j != q.k && j in s0.tokens && s0.tokens[j].res == n
    ensures Leads(run', s, s', q.order) && n in s'.res && s'.res[n].word == Word(BUSY, 0)
    ensures j in s'.tokens && s'.tokens[j].res == n
  {
    var s1, s2, s3;
    run', s1 := Calling(run, s, s0, q);
    run' := Follow(run', s, s1, q.order, q.t, Go);
    s2 := Do(s1, q.t, Go);
    assert Pc(s2, q.t) == CloseRead(q.g, q.k, n, Word(0, 0));
    run' := Follow(run', s, s2, q.order, q.t, Go);
    s3 := Do(s2, q.t, Go);
    assert Pc(s3, q.t) == CloseCas(q.g, q.k, n, Word(ACTIVE, 1), Word(BUSY, 0));
    run' := Follow(run', s, s3, q.order, q.t, Cas(false));
    s' := Do(s3, q.t, Cas(false));
  }

  /** ... and if the region is opened again before that close, the close gives back the new holder's
      reference: the region is taken away from a thread that still holds it. */
  lemma LateCloseStealsCount(s: State, q: Contest) returns (run: seq<State>, s': State, n: ResId)
    requires Inv(s) && Meets(s, q)
    ensures Leads(run, s, s', q.order) && n in s'.res && s'.res[n].word.status == BUSY && Outstanding(s', n) != {}
    ensures !CountExact(s', n)
  {
    var j;
    run, s' := CloseAllSweeps(s, q);
    run, s', n := Creating(run, s, s', q);
    run, s' := Taking(run, s, s', q, n);
    run, s', j := Publishing(run, s, s', q, n);
    run, s' := Stealing(run, s, s', q, n, j);
    assert j in Outstanding(s', n);
  }

  // -------------------------------------------------------------------------
  // An open without registration that fails

  const PLAIN := Flags(false, false)

  /** Threads t and u both read r as INACTIVE and are about to open it remotely, without registration. */
  predicate BothOpen(s: State, t: Tid, u: Tid, g: RegionId, r: ResId) {
    && t != u && r in s.res && s.res[r].word == Word(INACTIVE, 0)
    && Pc(s, t) == PlainRemote(g, PLAIN, r, Word(INACTIVE, 0)) && Pc(s, u) == Pc(s, t)
  }

  /** Thread t enters the region in the table and reads INACTIVE. */
  lemma Entering(t: Tid, g: RegionId) returns (run: seq<State>, s': State)
    ensures Leads(run, Init, s', []) && s'.table == map[g := 0] && TableFree(s')
    ensures 0 in s'.res && s'.res[0].word == Word(INACTIVE, 0)
    ensures s'.pcs == map[t := PlainRemote(g, PLAIN, 0, Word(INACTIVE, 0))]
  {
    run := Follow([Init], Init, Init, [], t, StartOpen(g, PLAIN));
    var s1 := Do(Init, t, StartOpen(g, PLAIN));
    assert Pc(s1, t) == FindRead(g, PLAIN);
    run := Follow(run, Init, s1, [], t, Go);
    var s2 := Do(s1, t, Go);
    assert Pc(s2, t) == FindWrite(g, PLAIN);
    run := Follow(run, Init, s2, [], t, Go);
    var s3 := Do(s2, t, Go);
    assert Pc(s3, t) == OpenRead(g, PLAIN, 0);
    run := Follow(run, Init, s3, [], t, Go);
    s' := Do(s3, t, Go);
  }

  /** Thread u finds it there and reads INACTIVE, too. */
  lemma Joining(t: Tid, u: Tid, g: RegionId) returns (run: seq<State>, s': State)
    requires t != u
    ensures Leads(run, Init, s', []) && BothOpen(s', t, u, g, 0)
  {
    var s0;
    run, s0 := Entering(t, g);
    run := Follow(run, Init, s0, [], u, StartOpen(g, PLAIN));
    var s1 := Do(s0, u, StartOpen(g, PLAIN));
    assert Pc(s1, u) == FindRead(g, PLAIN);
    run := Follow(run, Init, s1, [], u, Go);
    var s2 := Do(s1, u, Go);
    assert Pc(s2, u) == OpenRead(g, PLAIN, 0);
    run := Follow(run, Init, s2, [], u, Go);
    s' := Do(s2, u, Go);
  }

  /** Thread t succeeds. */
  lemma Winning(run: seq<State>, s: State, s0: State, t: Tid, u: Tid, g: RegionId, r: ResId)
    returns (run': seq<State>, s': State, k: Token)
    requires Leads(run, s, s0, []) && BothOpen(s0, t, u, g, r)
    ensures Leads(run', s, s', []) && r in s'.res && s'.res[r].word == Word(ACTIVE, 1)
    ensures k in s'.tokens && s'.tokens[k].res == r
    ensures Pc(s', u) == PlainRemote(g, PLAIN, r, Word(INACTIVE, 0))
  {
    run' := Follow(run, s, s0, [], t, Rpc(true));
    var s1 := Do(s0, t, Rpc(true));
    assert Pc(s1, t) == PlainCas(g, PLAIN, r, Word(INACTIVE, 0), s0.nextSpare);
    k := s1.nextToken;
    run' := Follow(run', s, s1, [], t, Cas(false));
    s' := Do(s1, t, Cas(false));
  }

  /** If then thread u's remote open fails, its handler releases the resource under t's reference. */
  lemma Failing(run: seq<State>, s: State, s0: State, t: Tid, u: Tid, g: RegionId, r: ResId)
    returns (run': seq<State>, s': State)
    requires Leads(run, s, s0, []) && BothOpen(s0, t, u, g, r)
    ensures Leads(run', s, s', []) && r in s'.res && s'.res[r].word == Word(RELEASED, 0) && Outstanding(s', r) != {}
  {
    var k, s1;
    run', s1, k := Winning(run, s, s0, t, u, g, r);
    run' := Follow(run', s, s1, [], u, Rpc(false));
    var s2 := Do(s1, u, Rpc(false));
    assert Pc(s2, u) == PlainFail(g, r);
    run' := Follow(run', s, s2, [], u, Go);
    s' := Do(s2, u, Go);
    assert k in Outstanding(s', r);
  }

  /** For any two threads and any region there is a run from the empty table that loses a count: both
      open without registration, one succeeds, and the other one's failure releases the resource. */
  lemma PlainFailureLosesCount(t: Tid, u: Tid, g: RegionId) returns (run: seq<State>, s': State, r: ResId)
    requires t != u
    ensures Leads(run, Init, s', []) && r in s'.res
    ensures s'.res[r].word.status == RELEASED && Outstanding(s', r) != {} && !CountExact(s', r)
  {
    r := 0;
    run, s' := Joining(t, u, g);
    run, s' := Failing(run, Init, s', t, u, g, r);
  }
}
