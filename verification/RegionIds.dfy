/**
 The life of a region id in the client interface service: reserved in the metadata
 service's bitmap, spread over memory servers that can each fail, entered into the
 metadata, destroyed again, and given back to the pool.

 A step is one call to the metadata service, the reply of one memory server, or the
 end of waiting for all replies.  Replies arrive in any order, and any number of
 calls run at once.
 */
module RegionIds {
  type Id = nat
  type Server = nat
  type Tid = nat

  const RELEASED: bv64 := 4
  const ALL_ONES: bv64 := 0xFFFF_FFFF_FFFF_FFFF

  /** How a memory server answered destroy_region. */
  datatype Reply = Done(status: bv64) | Failed

  // -------------------------------------------------------------------------
  // The status accumulated by destroy_region

  function Fold(replies: seq<Reply>): bv64 {
    if replies == [] then ALL_ONES
    else
      var last := replies[|replies| - 1];
      if last.Done? then Fold(replies[..|replies| - 1]) & last.status else Fold(replies[..|replies| - 1])
  }

  function Failures(replies: seq<Reply>): nat {
    if replies == [] then 0
    else Failures(replies[..|replies| - 1]) + if replies[|replies| - 1].Failed? then 1 else 0
  }

  lemma Appended(replies: seq<Reply>, last: Reply)
    ensures Fold(replies + [last]) == if last.Done? then Fold(replies) & last.status else Fold(replies)
    ensures Failures(replies + [last]) == Failures(replies) + if last.Failed? then 1 else 0
  {
    assert (replies + [last])[..|replies|] == replies;
  }

  method Accumulate(replies: seq<Reply>) returns (statusAccumulate: bv64, failCount: nat)
    ensures statusAccumulate == Fold(replies) && failCount == Failures(replies)
  {
    statusAccumulate, failCount := ALL_ONES, 0;
    for idx := 0 to |replies|
      invariant statusAccumulate == Fold(replies[..idx]) && failCount == Failures(replies[..idx])
    {
      Appended(replies[..idx], replies[idx]);
      assert replies[..idx + 1] == replies[..idx] + [replies[idx]];
      match replies[idx]
      case Done(status) => statusAccumulate := statusAccumulate & status;
      case Failed => failCount := failCount + 1;
    }
    assert replies[..|replies|] == replies;
  }

  /** A status other than RELEASED does not include RELEASED's bit. */
  predicate Legal(status: bv64) { status == RELEASED || status & RELEASED == 0 }

  ghost predicate LegalReplies(replies: seq<Reply>) {
    forall i :: 0 <= i < |replies| && replies[i].Done? ==> Legal(replies[i].status)
  }

  ghost predicate AllReleased(replies: seq<Reply>) {
    forall i :: 0 <= i < |replies| ==> replies[i] == Done(RELEASED)
  }

  lemma AndReleased(a: bv64, status: bv64)
    requires Legal(status)
    ensures a == ALL_ONES ==> a & status == status
    ensures a == RELEASED && status == RELEASED ==> a & status == RELEASED
    ensures a & RELEASED == 0 || status & RELEASED == 0 ==> (a & status) & RELEASED == 0
  {
  }

  lemma {:induction false} NoFailures(replies: seq<Reply>)
    ensures Failures(replies) == 0 <==> forall i :: 0 <= i < |replies| ==> replies[i].Done?
  {
    if replies != [] {
      NoFailures(replies[..|replies| - 1]);
    }
  }

  lemma {:induction false} FoldShape(replies: seq<Reply>)
    requires LegalReplies(replies) && (forall i :: 0 <= i < |replies| ==> replies[i].Done?)
    ensures replies == [] ==> Fold(replies) == ALL_ONES
    ensures replies != [] && AllReleased(replies) ==> Fold(replies) == RELEASED
    ensures !AllReleased(replies) ==> Fold(replies) & RELEASED == 0
  {
    if replies != [] {
      var init, last := replies[..|replies| - 1], replies[|replies| - 1];
      FoldShape(init);
      AndReleased(Fold(init), last.status);
      if !AllReleased(replies) && AllReleased(init) {
        assert last != Done(RELEASED);
      }
    }
  }

  /** The accumulated status is RELEASED exactly when there are servers and all reported it. */
  lemma {:induction false} FoldReleasedIff(replies: seq<Reply>)
    requires LegalReplies(replies)
    ensures (Failures(replies) == 0 && Fold(replies) == RELEASED) <==> (replies != [] && AllReleased(replies))
  {
    NoFailures(replies);
    if Failures(replies) == 0 {
      FoldShape(replies);
    }
  }

  /** Words that share RELEASED's bit fold to RELEASED though neither is. */
  lemma {:induction false} SharedBitFoldsToReleased()
    ensures Fold([Done(5), Done(6)]) == RELEASED && !Legal(5) && !Legal(6)
  {
    var r := [Done(5), Done(6)];
    assert r[..1] == [Done(5)] && r[..1][..0] == [];
    assert ALL_ONES & 5 == 5 && (5 as bv64) & 6 == 4;
  }

  // -------------------------------------------------------------------------
  // States and steps

  /** What a server keeps for an id: the region, or only the resource of clients still using it. */
  datatype Hold = Region | Lingering

  datatype PC =
    | Idle
    | Creating(id: Id, servers: seq<Server>, todo: set<nat>, ok: set<nat>)
    | Inserting(id: Id, servers: seq<Server>)
    | Cleaning(id: Id, servers: seq<Server>, todo: set<nat>, failed: nat)
    | Resetting(id: Id)
    | Destroying(id: Id, servers: seq<Server>, todo: set<nat>, replies: map<nat, Reply>)

  datatype State = State(
    reserved: set<Id>,                   // the bitmap
    meta: map<Id, seq<Server>>,          // registered regions and their servers
    held: map<(Server, Id), Hold>,
    pcs: map<Tid, PC>)

  datatype Step =
    | StartCreate(t: Tid, id: Id, servers: seq<Server>)
    | ServerCreate(t: Tid, i: nat, success: bool)
    | EndCreate(t: Tid)
    | Insert(t: Tid, success: bool)
    | ServerCleanup(t: Tid, i: nat, success: bool, keeps: bool)
    | EndCleanup(t: Tid)
    | Reset(t: Tid)
    | StartDestroy(t: Tid, id: Id)
    | ServerDestroy(t: Tid, i: nat, reply: Reply, left: set<Hold>)
    | EndDestroy(t: Tid)
    | Lapse(sv: Server, id: Id)          // the last client closes a lingering resource

  const Init := State({}, map[], map[], map[])

  function Pc(s: State, t: Tid): PC { if t in s.pcs then s.pcs[t] else Idle }

  function To(s: State, t: Tid, p: PC): State { s.(pcs := s.pcs[t := p]) }

  function Below(n: nat): (r: set<nat>)
    ensures forall i: nat :: i in r <==> i < n
  {
    if n == 0 then {} else Below(n - 1) + {n - 1}
  }

  function Indices(servers: seq<Server>): set<nat> { Below(|servers|) }

  function Drop(s: State, sv: Server, id: Id): State { s.(held := s.held - {(sv, id)}) }

  function InOrder(servers: seq<Server>, replies: map<nat, Reply>): seq<Reply> {
    seq(|servers|, i => if i in replies then replies[i] else Failed)
  }

  predicate Enabled(s: State, a: Step) {
    match a
    case StartCreate(t, id, _) => Pc(s, t).Idle? && id !in s.reserved
    case ServerCreate(t, i, _) => Pc(s, t).Creating? && i in Pc(s, t).todo && i < |Pc(s, t).servers|
    case EndCreate(t) => Pc(s, t).Creating? && Pc(s, t).todo == {}
    case Insert(t, _) => Pc(s, t).Inserting?
    case ServerCleanup(t, i, _, _) => Pc(s, t).Cleaning? && i in Pc(s, t).todo && i < |Pc(s, t).servers|
    case EndCleanup(t) => Pc(s, t).Cleaning? && Pc(s, t).todo == {}
    case Reset(t) => Pc(s, t).Resetting?
    case StartDestroy(t, id) => Pc(s, t).Idle? && id in s.meta
    case ServerDestroy(t, i, reply, _) =>
      && Pc(s, t).Destroying? && i in Pc(s, t).todo && i < |Pc(s, t).servers|
      && (reply.Done? ==> Legal(reply.status))
    case EndDestroy(t) => Pc(s, t).Destroying? && Pc(s, t).todo == {}
    case Lapse(sv, id) => (sv, id) in s.held && s.held[(sv, id)].Lingering?
  }

  /** The metadata service reserves the id; with no server to use it throws and the id stays reserved. */
  function DoStartCreate(s: State, t: Tid, id: Id, servers: seq<Server>): State {
    To(s.(reserved := s.reserved + {id}), t,
       if servers == [] then Idle else Creating(id, servers, Indices(servers), {}))
  }

  /** A server that fails to create the region leaves nothing behind. */
  function DoServerCreate(s: State, t: Tid, i: nat, success: bool): State
    requires Enabled(s, ServerCreate(t, i, success))
  {
    var p := Pc(s, t);
    if success then
      To(s.(held := s.held[(p.servers[i], p.id) := Region]), t,
         Creating(p.id, p.servers, p.todo - {i}, p.ok + {i}))
    else To(s, t, Creating(p.id, p.servers, p.todo - {i}, p.ok))
  }

  function DoEndCreate(s: State, t: Tid): State
    requires Enabled(s, EndCreate(t))
  {
    var p := Pc(s, t);
    To(s, t, if p.ok == Indices(p.servers) then Inserting(p.id, p.servers) else Cleaning(p.id, p.servers, p.ok, 0))
  }

  function DoInsert(s: State, t: Tid, success: bool): State
    requires Enabled(s, Insert(t, success))
  {
    var p := Pc(s, t);
    if success then To(s.(meta := s.meta[p.id := p.servers]), t, Idle)
    else To(s, t, Cleaning(p.id, p.servers, Indices(p.servers), 0))
  }

  /** A server whose cleanup fails may or may not still have the region. */
  function DoServerCleanup(s: State, t: Tid, i: nat, success: bool, keeps: bool): State
    requires Enabled(s, ServerCleanup(t, i, success, keeps))
  {
    var p := Pc(s, t);
    var s' := if success || !keeps then Drop(s, p.servers[i], p.id) else s;
    To(s', t, Cleaning(p.id, p.servers, p.todo - {i}, p.failed + if success then 0 else 1))
  }

  function DoEndCleanup(s: State, t: Tid): State
    requires Enabled(s, EndCleanup(t))
  {
    To(s, t, if Pc(s, t).failed == 0 then Resetting(Pc(s, t).id) else Idle)
  }

  function DoReset(s: State, t: Tid): State
    requires Enabled(s, Reset(t))
  {
    To(s.(reserved := s.reserved - {Pc(s, t).id}), t, Idle)
  }

  function DoStartDestroy(s: State, t: Tid, id: Id): State
    requires Enabled(s, StartDestroy(t, id))
  {
    To(s.(meta := s.meta - {id}), t, Destroying(id, s.meta[id], Indices(s.meta[id]), map[]))
  }

  /** What server sv keeps after destroy_region: nothing if it reports RELEASED, the clients'
      resource if it reports another status, anything if it fails. */
  function AfterDestroy(s: State, sv: Server, id: Id, reply: Reply, left: set<Hold>): State {
    if (sv, id) !in s.held then s
    else if reply == Done(RELEASED) then Drop(s, sv, id)
    else if reply.Done? || Lingering in left then s.(held := s.held[(sv, id) := Lingering])
    else if Region in left then s
    else Drop(s, sv, id)
  }

  function DoServerDestroy(s: State, t: Tid, i: nat, reply: Reply, left: set<Hold>): State
    requires Enabled(s, ServerDestroy(t, i, reply, left))
  {
    var p := Pc(s, t);
    To(AfterDestroy(s, p.servers[i], p.id, reply, left), t,
       Destroying(p.id, p.servers, p.todo - {i}, p.replies[i := reply]))
  }

  function DoEndDestroy(s: State, t: Tid): State
    requires Enabled(s, EndDestroy(t))
  {
    var p := Pc(s, t);
    var replies := InOrder(p.servers, p.replies);
    To(s, t, if Failures(replies) == 0 && Fold(replies) == RELEASED then Resetting(p.id) else Idle)
  }

  function Do(s: State, a: Step): State
    requires Enabled(s, a)
  {
    match a
    case StartCreate(t, id, servers) => DoStartCreate(s, t, id, servers)
    case ServerCreate(t, i, success) => DoServerCreate(s, t, i, success)
    case EndCreate(t) => DoEndCreate(s, t)
    case Insert(t, success) => DoInsert(s, t, success)
    case ServerCleanup(t, i, success, keeps) => DoServerCleanup(s, t, i, success, keeps)
    case EndCleanup(t) => DoEndCleanup(s, t)
    case Reset(t) => DoReset(s, t)
    case StartDestroy(t, id) => DoStartDestroy(s, t, id)
    case ServerDestroy(t, i, reply, left) => DoServerDestroy(s, t, i, reply, left)
    case EndDestroy(t) => DoEndDestroy(s, t)
    case Lapse(sv, id) => Drop(s, sv, id)
  }

  // -------------------------------------------------------------------------
  // The invariant

  /** sv is one of the servers at the positions `at`. */
  ghost predicate IsAt(servers: seq<Server>, at: set<nat>, sv: Server) {
    exists i: nat :: i in at && i < |servers| && servers[i] == sv
  }

  /** Server sv keeping the id of a call is something the call still knows about. */
  ghost predicate Accounts(p: PC, sv: Server)
    requires !p.Idle?
  {
    match p
    case Creating(_, servers, _, ok) => IsAt(servers, ok, sv)
    case Inserting(_, servers) => sv in servers
    case Cleaning(_, servers, todo, failed) => failed > 0 || IsAt(servers, todo, sv)
    case Resetting(_) => false
    case Destroying(_, servers, todo, replies) => IsAt(servers, todo + Unreleased(replies), sv)
  }

  function Unreleased(replies: map<nat, Reply>): set<nat> {
    set i | i in replies && replies[i] != Done(RELEASED)
  }

  predicate HasRegion(s: State, sv: Server, id: Id) { (sv, id) in s.held && s.held[(sv, id)].Region? }

  ghost predicate Complete(s: State, id: Id, servers: seq<Server>, at: set<nat>) {
    forall i: nat :: i in at && i < |servers| ==> HasRegion(s, servers[i], id)
  }

  /** The positions a call keeps count of. */
  predicate Shape(p: PC) {
    match p
    case Creating(_, servers, todo, ok) => servers != [] && todo <= Indices(servers) && ok <= Indices(servers)
    case Inserting(_, servers) => servers != []
    case Cleaning(_, servers, todo, _) => todo <= Indices(servers)
    case Destroying(_, servers, todo, replies) =>
      && servers != [] && todo + replies.Keys == Indices(servers)
      && forall i :: i in replies && replies[i].Done? ==> Legal(replies[i].status)
    case _ => true
  }

  ghost predicate ThreadOk(s: State, t: Tid) {
    var p := Pc(s, t);
    p.Idle? || (
      && p.id in s.reserved && p.id !in s.meta && Shape(p)
      && (forall sv :: (sv, p.id) in s.held ==> Accounts(p, sv))
      && (p.Creating? ==> Complete(s, p.id, p.servers, p.ok))
      && (p.Inserting? ==> Complete(s, p.id, p.servers, Indices(p.servers))))
  }

  ghost predicate IdOk(s: State, id: Id) {
    && (forall sv :: (sv, id) in s.held ==> id in s.reserved)
    && (id in s.meta ==>
      && id in s.reserved && s.meta[id] != []
      && (forall sv :: (sv, id) in s.held ==> sv in s.meta[id])
      && Complete(s, id, s.meta[id], Indices(s.meta[id])))
  }

  predicate Apart(s: State, t: Tid, u: Tid) {
    t != u && !Pc(s, t).Idle? && !Pc(s, u).Idle? ==> Pc(s, t).id != Pc(s, u).id
  }

  ghost predicate Inv(s: State) {
    && (forall t :: ThreadOk(s, t))
    && (forall id :: IdOk(s, id))
    && (forall t, u :: Apart(s, t, u))
  }

  /** Nothing but id `x` and thread t is touched. */
  ghost predicate Touches(s: State, s': State, t: Tid, x: Id) {
    && (forall sv, id :: id != x ==> ((sv, id) in s'.held <==> (sv, id) in s.held))
    && (forall sv, id :: id != x && (sv, id) in s.held ==> s'.held[(sv, id)] == s.held[(sv, id)])
    && (forall id :: id != x ==> (id in s'.reserved <==> id in s.reserved))
    && (forall id :: id != x ==> (id in s'.meta <==> id in s.meta))
    && (forall id :: id != x && id in s.meta ==> s'.meta[id] == s.meta[id])
    && (forall u :: u != t ==> Pc(s', u) == Pc(s, u))
  }

  /** The thread owns id x, or nobody does. */
  ghost predicate Mine(s: State, t: Tid, x: Id) {
    forall u :: u != t && !Pc(s, u).Idle? ==> Pc(s, u).id != x
  }

  lemma OtherThread(s: State, s': State, t: Tid, x: Id, u: Tid)
    requires ThreadOk(s, u) && Touches(s, s', t, x) && u != t && (Pc(s, u).Idle? || Pc(s, u).id != x)
    ensures ThreadOk(s', u)
  {
    var p := Pc(s, u);
    if !p.Idle? {
      forall sv | (sv, p.id) in s'.held ensures Accounts(p, sv) { assert (sv, p.id) in s.held; }
    }
  }

  lemma OtherId(s: State, s': State, t: Tid, x: Id, id: Id)
    requires IdOk(s, id) && Touches(s, s', t, x) && id != x
    ensures IdOk(s', id)
  {
    forall sv | (sv, id) in s'.held ensures id in s'.reserved { assert (sv, id) in s.held; }
    if id in s'.meta {
      forall sv | (sv, id) in s'.held ensures sv in s'.meta[id] { assert (sv, id) in s.held; }
    }
  }

  /** A step of thread t on id x keeps the invariant if it keeps that of x and t. */
  lemma Assemble(s: State, s': State, t: Tid, x: Id)
    requires Inv(s) && Touches(s, s', t, x) && Mine(s, t, x)
    requires ThreadOk(s', t) && IdOk(s', x) && (Pc(s', t).Idle? || Pc(s', t).id == x)
    ensures Inv(s')
  {
    forall u ensures ThreadOk(s', u) { if u != t { OtherThread(s, s', t, x, u); } }
    forall id ensures IdOk(s', id) { if id != x { OtherId(s, s', t, x, id); } }
    forall u, v ensures Apart(s', u, v) { assert Apart(s, u, v); }
  }

  lemma OwnIsMine(s: State, t: Tid)
    requires Inv(s) && !Pc(s, t).Idle?
    ensures Mine(s, t, Pc(s, t).id)
  {
    forall u | u != t && !Pc(s, u).Idle? ensures Pc(s, u).id != Pc(s, t).id { assert Apart(s, u, t); }
  }

  // -------------------------------------------------------------------------
  // Every step keeps the invariant

  lemma KeepsStartCreate(s: State, t: Tid, id: Id, servers: seq<Server>)
    requires Inv(s) && Enabled(s, StartCreate(t, id, servers))
    ensures Inv(DoStartCreate(s, t, id, servers))
  {
    assert IdOk(s, id);
    forall u | !Pc(s, u).Idle? ensures Pc(s, u).id != id { assert ThreadOk(s, u); }
    Assemble(s, DoStartCreate(s, t, id, servers), t, id);
  }

  lemma KeepsServerCreate(s: State, t: Tid, i: nat, success: bool)
    requires Inv(s) && Enabled(s, ServerCreate(t, i, success))
    ensures Inv(DoServerCreate(s, t, i, success))
  {
    var p, s' := Pc(s, t), DoServerCreate(s, t, i, success);
    var p' := Pc(s', t);
    assert ThreadOk(s, t) && IdOk(s, p.id);
    OwnIsMine(s, t);
    forall sv | (sv, p.id) in s'.held ensures Accounts(p', sv) {
      if (sv, p.id) in s.held {
        assert Accounts(p, sv);
        var k: nat :| k in p.ok && k < |p.servers| && p.servers[k] == sv;
        assert k in p'.ok;
      } else {
        assert i in p'.ok;
      }
    }
    Assemble(s, s', t, p.id);
  }

  lemma KeepsEndCreate(s: State, t: Tid)
    requires Inv(s) && Enabled(s, EndCreate(t))
    ensures Inv(DoEndCreate(s, t))
  {
    var p, s' := Pc(s, t), DoEndCreate(s, t);
    assert ThreadOk(s, t) && IdOk(s, p.id);
    OwnIsMine(s, t);
    forall sv | (sv, p.id) in s'.held ensures Accounts(Pc(s', t), sv) { assert Accounts(p, sv); }
    Assemble(s, s', t, p.id);
  }

  lemma KeepsInsert(s: State, t: Tid, success: bool)
    requires Inv(s) && Enabled(s, Insert(t, success))
    ensures Inv(DoInsert(s, t, success))
  {
    var p, s' := Pc(s, t), DoInsert(s, t, success);
    assert ThreadOk(s, t) && IdOk(s, p.id);
    OwnIsMine(s, t);
    forall sv | (sv, p.id) in s'.held ensures sv in p.servers && IsAt(p.servers, Indices(p.servers), sv) {
      assert Accounts(p, sv);
      var k: nat :| k < |p.servers| && p.servers[k] == sv;
      assert k in Indices(p.servers);
    }
    Assemble(s, s', t, p.id);
  }

  lemma KeepsServerCleanup(s: State, t: Tid, i: nat, success: bool, keeps: bool)
    requires Inv(s) && Enabled(s, ServerCleanup(t, i, success, keeps))
    ensures Inv(DoServerCleanup(s, t, i, success, keeps))
  {
    var p, s' := Pc(s, t), DoServerCleanup(s, t, i, success, keeps);
    var p' := Pc(s', t);
    assert ThreadOk(s, t) && IdOk(s, p.id);
    OwnIsMine(s, t);
    forall sv | (sv, p.id) in s'.held && p'.failed == 0 ensures Accounts(p', sv) {
      assert (sv, p.id) in s.held && Accounts(p, sv);
      var k: nat :| k in p.todo && k < |p.servers| && p.servers[k] == sv;
      assert k in p'.todo;
    }
    Assemble(s, s', t, p.id);
  }

  lemma KeepsEndCleanup(s: State, t: Tid)
    requires Inv(s) && Enabled(s, EndCleanup(t))
    ensures Inv(DoEndCleanup(s, t))
  {
    assert ThreadOk(s, t) && IdOk(s, Pc(s, t).id);
    OwnIsMine(s, t);
    Assemble(s, DoEndCleanup(s, t), t, Pc(s, t).id);
  }

  lemma KeepsReset(s: State, t: Tid)
    requires Inv(s) && Enabled(s, Reset(t))
    ensures Inv(DoReset(s, t))
  {
    var x, s' := Pc(s, t).id, DoReset(s, t);
    assert ThreadOk(s, t) && IdOk(s, x);
    OwnIsMine(s, t);
    Assemble(s, s', t, x);
  }

  lemma KeepsStartDestroy(s: State, t: Tid, id: Id)
    requires Inv(s) && Enabled(s, StartDestroy(t, id))
    ensures Inv(DoStartDestroy(s, t, id))
  {
    var s' := DoStartDestroy(s, t, id);
    assert IdOk(s, id);
    forall u | !Pc(s, u).Idle? ensures Pc(s, u).id != id { assert ThreadOk(s, u); }
    forall sv | (sv, id) in s'.held ensures Accounts(Pc(s', t), sv) {
      assert (sv, id) in s.held && sv in s.meta[id];
      var k: nat :| k < |s.meta[id]| && s.meta[id][k] == sv;
      assert k in Indices(s.meta[id]) + Unreleased(map[]);
    }
    Assemble(s, s', t, id);
  }

  lemma DestroyOnlyDrops(s: State, sv: Server, id: Id, reply: Reply, left: set<Hold>)
    ensures var s' := AfterDestroy(s, sv, id, reply, left);
      && s' == s.(held := s'.held)
      && (forall x, y :: (x, y) in s'.held ==> (x, y) in s.held)
      && (forall x, y :: y != id && (x, y) in s.held ==> (x, y) in s'.held && s'.held[(x, y)] == s.held[(x, y)])
      && (reply == Done(RELEASED) ==> (sv, id) !in s'.held)
  {
  }

  /** A server still holding the id after this reply is one still to answer, or one that did not report RELEASED. */
  lemma StillAccounted(p: PC, i: nat, reply: Reply, sv: Server)
    requires p.Destroying? && i < |p.servers| && Accounts(p, sv) && (reply == Done(RELEASED) ==> sv != p.servers[i])
    ensures Accounts(Destroying(p.id, p.servers, p.todo - {i}, p.replies[i := reply]), sv)
  {
    var k: nat :| k in p.todo + Unreleased(p.replies) && k < |p.servers| && p.servers[k] == sv;
    assert k in (p.todo - {i}) + Unreleased(p.replies[i := reply]);
  }

  lemma KeepsServerDestroy(s: State, t: Tid, i: nat, reply: Reply, left: set<Hold>)
    requires Inv(s) && Enabled(s, ServerDestroy(t, i, reply, left))
    ensures Inv(DoServerDestroy(s, t, i, reply, left))
  {
    var p, s' := Pc(s, t), DoServerDestroy(s, t, i, reply, left);
    var p' := Pc(s', t);
    assert ThreadOk(s, t) && IdOk(s, p.id);
    OwnIsMine(s, t);
    DestroyOnlyDrops(s, p.servers[i], p.id, reply, left);
    forall sv | (sv, p.id) in s'.held ensures Accounts(p', sv) { StillAccounted(p, i, reply, sv); }
    Assemble(s, s', t, p.id);
  }

  lemma UnreleasedShows(p: PC, sv: Server)
    requires p.Destroying? && p.todo == {} && Accounts(p, sv)
    ensures !AllReleased(InOrder(p.servers, p.replies))
  {
    var k: nat :| k in p.todo + Unreleased(p.replies) && k < |p.servers| && p.servers[k] == sv;
    assert InOrder(p.servers, p.replies)[k] != Done(RELEASED);
  }

  lemma KeepsEndDestroy(s: State, t: Tid)
    requires Inv(s) && Enabled(s, EndDestroy(t))
    ensures Inv(DoEndDestroy(s, t))
  {
    var p, s' := Pc(s, t), DoEndDestroy(s, t);
    var replies := InOrder(p.servers, p.replies);
    assert ThreadOk(s, t) && IdOk(s, p.id);
    OwnIsMine(s, t);
    FoldReleasedIff(replies);
    if Pc(s', t).Resetting? {
      forall sv ensures (sv, p.id) !in s.held { if (sv, p.id) in s.held { UnreleasedShows(p, sv); } }
    }
    Assemble(s, s', t, p.id);
  }

  lemma KeepsLapse(s: State, sv: Server, id: Id)
    requires Inv(s) && Enabled(s, Lapse(sv, id))
    ensures Inv(Drop(s, sv, id))
  {
    var s' := Drop(s, sv, id);
    forall t ensures ThreadOk(s', t) { assert ThreadOk(s, t); }
    forall x ensures IdOk(s', x) { assert IdOk(s, x); }
    forall t, u ensures Apart(s', t, u) { assert Apart(s, t, u); }
  }

  lemma StepKeepsInv(s: State, a: Step)
    requires Inv(s) && Enabled(s, a)
    ensures Inv(Do(s, a))
  {
    match a
    case StartCreate(t, id, servers) => KeepsStartCreate(s, t, id, servers);
    case ServerCreate(t, i, success) => KeepsServerCreate(s, t, i, success);
    case EndCreate(t) => KeepsEndCreate(s, t);
    case Insert(t, success) => KeepsInsert(s, t, success);
    case ServerCleanup(t, i, success, keeps) => KeepsServerCleanup(s, t, i, success, keeps);
    case EndCleanup(t) => KeepsEndCleanup(s, t);
    case Reset(t) => KeepsReset(s, t);
    case StartDestroy(t, id) => KeepsStartDestroy(s, t, id);
    case ServerDestroy(t, i, reply, left) => KeepsServerDestroy(s, t, i, reply, left);
    case EndDestroy(t) => KeepsEndDestroy(s, t);
    case Lapse(sv, id) => KeepsLapse(s, sv, id);
  }

  // -------------------------------------------------------------------------
  // Whole runs

  ghost predicate Next(s: State, s': State) { exists a :: Enabled(s, a) && s' == Do(s, a) }

  /** Any interleaving of creates and destroys, with any failures. */
  ghost predicate IsRun(run: seq<State>) {
    |run| > 0 && run[0] == Init && forall n :: 0 <= n < |run| - 1 ==> Next(run[n], run[n + 1])
  }

  lemma {:induction false} RunInv(run: seq<State>, n: nat)
    requires IsRun(run) && n < |run|
    ensures Inv(run[n])
  {
    if n > 0 {
      RunInv(run, n - 1);
      assert Next(run[n - 1], run[n - 1 + 1]);
      var a :| Enabled(run[n - 1], a) && run[n] == Do(run[n - 1], a);
      StepKeepsInv(run[n - 1], a);
    }
  }

  /** An id in the free pool is kept by no memory server, registered nowhere, and worked on by no call. */
  lemma FreeIdIsUnheld(run: seq<State>, n: nat, id: Id)
    requires IsRun(run) && n < |run| && id !in run[n].reserved
    ensures forall sv :: (sv, id) !in run[n].held
    ensures id !in run[n].meta
    ensures forall t :: Pc(run[n], t).Idle? || Pc(run[n], t).id != id
  {
    RunInv(run, n);
    assert IdOk(run[n], id);
    forall t ensures Pc(run[n], t).Idle? || Pc(run[n], t).id != id { assert ThreadOk(run[n], t); }
  }

  /** A registered region exists on all of its servers and on no other. */
  lemma RegisteredRegionIsComplete(run: seq<State>, n: nat, id: Id, sv: Server)
    requires IsRun(run) && n < |run| && id in run[n].meta
    ensures sv in run[n].meta[id] ==> HasRegion(run[n], sv, id)
    ensures sv !in run[n].meta[id] ==> (sv, id) !in run[n].held
  {
    RunInv(run, n);
    assert IdOk(run[n], id);
    if sv in run[n].meta[id] {
      var k: nat :| k < |run[n].meta[id]| && run[n].meta[id][k] == sv;
      assert k in Indices(run[n].meta[id]);
    }
  }

  /** When the servers of a destroy have all answered, the id goes back exactly if all reported RELEASED. */
  lemma DestroyGivesBackIff(run: seq<State>, n: nat, t: Tid)
    requires IsRun(run) && n < |run| && Enabled(run[n], EndDestroy(t))
    ensures var p := Pc(run[n], t);
      Pc(Do(run[n], EndDestroy(t)), t) == Resetting(p.id) <==>
        forall i: nat :: i < |p.servers| ==> i in p.replies && p.replies[i] == Done(RELEASED)
  {
    RunInv(run, n);
    assert ThreadOk(run[n], t);
    var p := Pc(run[n], t);
    var replies := InOrder(p.servers, p.replies);
    FoldReleasedIff(replies);
    if AllReleased(replies) {
      forall i: nat | i < |p.servers| ensures i in p.replies && p.replies[i] == Done(RELEASED) {
        assert replies[i] == Done(RELEASED);
      }
    }
  }

  /** When the servers of a failed create have all answered the cleanup, the id goes back, registered
      and kept nowhere, exactly if no cleanup failed. */
  lemma CleanupGivesBackIff(run: seq<State>, n: nat, t: Tid)
    requires IsRun(run) && n < |run| && Enabled(run[n], EndCleanup(t))
    ensures var x, s := Pc(run[n], t).id, Do(run[n], EndCleanup(t));
      if Pc(run[n], t).failed == 0
      then Enabled(s, Reset(t)) && x !in Do(s, Reset(t)).reserved && x !in s.meta && forall sv :: (sv, x) !in s.held
      else Pc(s, t).Idle? && x in s.reserved
  {
    RunInv(run, n);
    assert ThreadOk(run[n], t);
  }
}
