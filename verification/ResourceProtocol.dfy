/**
 The client's region-reference protocol (Fam_Client_Resource_Manager) as a
 transition system.

 Any number of threads run `open_resource`, `close_resource` and
 `close_all_resources` against one resource table.  A step is one atomic action
 on a resource's status/refcount word, one locked section on the table, or one
 remote call.  A successful open yields a reference (a token); a close consumes
 one.  A holder may also drop its reference, which is to promise never to close it;
 references stay counted until they are closed or their resource is released.

 An open registers the region's memory or it does not.  A registering open takes the
 resource over (BUSY) for its remote call; an open without registration makes the call
 first and then tries to store ACTIVE.

 Resources carry history fields (owner, holders, everOpened, everClosed, wasActive) and
 the state a list of spare remote opens; they record what happened and decide no step.
 */
module ResourceProtocol {
  import opened StatusWord

  type Tid = nat
  type RegionId = nat
  type ResId = nat
  type Token = nat

  datatype Option<T> = None | Some(value: T)

  datatype Resource = Resource(
    region: RegionId,
    word: Word,
    owner: Option<Tid>,    // thread that moved it to BUSY, or still owes its remote close
    holders: set<Token>,   // references handed out and neither closed nor revoked
    everOpened: bool,      // a remote open succeeded for it
    everClosed: bool,      // a remote close was sent for it
    wasActive: bool)       // it reached ACTIVE

  /** A reference: the resource it was opened on, the close call using it, if any, and whether its
      holder has dropped it. */
  datatype Reference = Reference(res: ResId, closer: Option<Tid>, dropped: bool)

  /** FAM_INIT_ONLY and FAM_REGISTER_MEMORY. */
  datatype Flags = Flags(initOnly: bool, register: bool)

  /** A remote open made without taking the resource over, and the thread that still wants to use it. */
  datatype Spare = Spare(region: RegionId, owner: Option<Tid>)

  datatype PC =
    | Idle
    | Crashed                                                  // dereferenced a missing table entry
    | FindRead(region: RegionId, f: Flags)
    | FindWrite(region: RegionId, f: Flags)
    | OpenRead(region: RegionId, f: Flags, r: ResId)
    | OpenCas(region: RegionId, f: Flags, r: ResId, v: Word)
    | OpenInitCas(region: RegionId, f: Flags, r: ResId, v: Word)
    | RemoteOpen(region: RegionId, f: Flags, r: ResId)
    | Publish(region: RegionId, f: Flags, r: ResId)
    | OpenFail(region: RegionId, r: ResId)
    | PlainRemote(region: RegionId, f: Flags, r: ResId, v: Word)
    | PlainCas(region: RegionId, f: Flags, r: ResId, v: Word, n: nat)
    | PlainFail(region: RegionId, r: ResId)
    | CloseFind(region: RegionId, k: Token)
    | CloseRead(region: RegionId, k: Token, r: ResId, nv: Word)
    | CloseCas(region: RegionId, k: Token, r: ResId, v: Word, nv: Word)
    | CloseRelease(region: RegionId, r: ResId)
    | CloseRemote(region: RegionId, r: ResId)
    | AllLoop(todo: set<RegionId>)
    | AllRead(todo: set<RegionId>, region: RegionId, r: ResId)
    | AllCas(todo: set<RegionId>, region: RegionId, r: ResId, v: Word)
    | AllErase(todo: set<RegionId>, region: RegionId, r: ResId)
    | AllRemote(todo: set<RegionId>, region: RegionId, r: ResId)

  datatype State = State(
    res: map<ResId, Resource>,          // every resource ever published
    nextRes: nat,
    table: map<RegionId, ResId>,        // famResourceTable
    lock: Option<Tid>,                  // write holder of famResourceTableLock across steps
    garbage: seq<ResId>,                // famClientResourceGarbageQ
    tokens: map<Token, Reference>,
    nextToken: nat,
    pcs: map<Tid, PC>,
    opens: map<RegionId, nat>,          // successful remote opens
    closes: map<RegionId, nat>,         // remote closes sent
    spares: map<nat, Spare>,
    nextSpare: nat)

  /** What the environment decides in one step. */
  datatype Choice =
    | StartOpen(region: RegionId, f: Flags)
    | StartClose(k: Token)
    | Drop(k: Token)
    | StartCloseAll
    | Go
    | Cas(spurious: bool)               // compare_exchange_weak may fail for no reason
    | Rpc(ok: bool)
    | Pick(region: RegionId)

  function Pc(s: State, t: Tid): PC { if t in s.pcs then s.pcs[t] else Idle }

  const NO_RESOURCE := Resource(0, Word(0, 0), None, {}, false, false, false)

  function At(s: State, r: ResId): Resource { if r in s.res then s.res[r] else NO_RESOURCE }

  function Tally(m: map<RegionId, nat>, g: RegionId): nat { if g in m then m[g] else 0 }

  function SetPc(s: State, t: Tid, p: PC): State { s.(pcs := s.pcs[t := p]) }

  function SetRes(s: State, r: ResId, x: Resource): State { s.(res := s.res[r := x]) }

  const Init := State(map[], 0, map[], None, [], map[], 0, map[], map[], map[], map[], 0)

  predicate TableFree(s: State) { s.lock.None? }

  predicate InTable(s: State, r: ResId) {
    At(s, r).region in s.table && s.table[At(s, r).region] == r
  }

  // -------------------------------------------------------------------------
  // Steps

  /** No step moves another thread, moves a reference to another resource or brings back one that is gone. */
  ghost predicate Framed(s: State, s': State, t: Tid) {
    && (forall u :: u != t ==> Pc(s', u) == Pc(s, u))
    && s.nextToken <= s'.nextToken
    && (forall k :: k in s'.tokens && k < s.nextToken ==> k in s.tokens && s'.tokens[k].res == s.tokens[k].res)
  }

  predicate Enabled(s: State, t: Tid, c: Choice) {
    match Pc(s, t)
    case Idle =>
      (match c
       case StartOpen(_, _) => true
       case StartClose(k) => k in s.tokens && s.tokens[k].closer.None? && !s.tokens[k].dropped
       case Drop(k) => k in s.tokens && s.tokens[k].closer.None?
       case StartCloseAll => TableFree(s)
       case _ => false)
    case Crashed => false
    case FindRead(_, _) => c.Go? && TableFree(s)
    case FindWrite(_, _) => c.Go? && TableFree(s)
    case CloseFind(_, _) => c.Go? && TableFree(s)
    case OpenCas(_, _, _, _) => c.Cas?
    case OpenInitCas(_, _, _, _) => c.Cas?
    case CloseCas(_, _, _, _, _) => c.Cas?
    case AllCas(_, _, _, _) => c.Cas?
    case RemoteOpen(_, _, _) => c.Rpc?
    case PlainRemote(_, _, _, _) => c.Rpc?
    case PlainCas(_, _, _, _, _) => c.Cas?
    case AllLoop(todo) => if todo == {} then c.Go? else c.Pick? && c.region in todo
    case _ => c.Go?
  }

  function StepIdle(s: State, t: Tid, c: Choice): (s': State)
    requires Pc(s, t).Idle? && Enabled(s, t, c)
    ensures Framed(s, s', t) && s'.table == s.table && s'.spares == s.spares
  {
    match c
    case StartOpen(g, f) => SetPc(s, t, FindRead(g, f))
    case Drop(k) => s.(tokens := s.tokens[k := s.tokens[k].(dropped := true)])
    case StartClose(k) =>
      var g := At(s, s.tokens[k].res).region;
      SetPc(s.(tokens := s.tokens[k := s.tokens[k].(closer := Some(t))]), t, CloseFind(g, k))
    case StartCloseAll => SetPc(s.(lock := Some(t)), t, AllLoop(s.table.Keys))
  }

  /** find_or_create_resource under the read lock. */
  function StepFindRead(s: State, t: Tid): (s': State)
    requires Pc(s, t).FindRead?
    ensures Framed(s, s', t) && s'.table == s.table && s'.spares == s.spares
  {
    var FindRead(g, i) := Pc(s, t);
    SetPc(s, t, if g in s.table && At(s, s.table[g]).word.status != RELEASED
                then OpenRead(g, i, s.table[g]) else FindWrite(g, i))
  }

  /** find_or_create_resource under the write lock: insert, replace a stale entry, or reuse. */
  function StepFindWrite(s: State, t: Tid): (s': State)
    requires Pc(s, t).FindWrite?
    ensures Framed(s, s', t) && s'.spares == s.spares
  {
    var FindWrite(g, i) := Pc(s, t);
    if g in s.table && At(s, s.table[g]).word.status != RELEASED
    then SetPc(s, t, OpenRead(g, i, s.table[g]))
    else
      var n := s.nextRes;
      var entry := Resource(g, Word(INACTIVE, 0), None, {}, false, false, false);
      var stale := if g in s.table then [s.table[g]] else [];
      SetPc(SetRes(s, n, entry).(nextRes := n + 1, table := s.table[g := n], garbage := s.garbage + stale),
            t, OpenRead(g, i, n))
  }

  /** open_resource: the atomic read and the switch on the status; BUSY is read again. */
  function StepOpenRead(s: State, t: Tid): (s': State)
    requires Pc(s, t).OpenRead?
    ensures Framed(s, s', t) && s'.table == s.table && s'.spares == s.spares
  {
    var OpenRead(g, i, r) := Pc(s, t);
    SetPc(s, t, AfterRead(g, i, r, At(s, r).word))
  }

  function AfterRead(g: RegionId, i: Flags, r: ResId, v: Word): PC {
    if v.status == ACTIVE then OpenCas(g, i, r, v)
    else if v.status == INACTIVE then (if i.register then OpenInitCas(g, i, r, v) else PlainRemote(g, i, r, v))
    else if v.status == RELEASED then FindRead(g, i)
    else OpenRead(g, i, r)
  }

  /** ACTIVE: count one more reference. */
  function StepOpenCas(s: State, t: Tid, spurious: bool): (s': State)
    requires Pc(s, t).OpenCas?
    ensures Framed(s, s', t) && s'.table == s.table && s'.spares == s.spares
  {
    var OpenCas(g, i, r, v) := Pc(s, t);
    var x := At(s, r);
    if x.word == v && !spurious then
      var k := s.nextToken;
      SetPc(SetRes(s, r, x.(word := Concat(ACTIVE, v.refcnt + 1), holders := x.holders + {k}))
              .(tokens := s.tokens[k := Reference(r, None, false)], nextToken := k + 1), t, Idle)
    else SetPc(s, t, OpenRead(g, i, r))
  }

  /** INACTIVE: the winner moves it to BUSY and opens the region remotely. */
  function StepOpenInitCas(s: State, t: Tid, spurious: bool): (s': State)
    requires Pc(s, t).OpenInitCas?
    ensures Framed(s, s', t) && s'.table == s.table && s'.spares == s.spares
  {
    var OpenInitCas(g, i, r, v) := Pc(s, t);
    var x := At(s, r);
    if x.word == v && !spurious
    then SetPc(SetRes(s, r, x.(word := Concat(BUSY, 0), owner := Some(t))), t, RemoteOpen(g, i, r))
    else SetPc(s, t, OpenRead(g, i, r))
  }

  function StepRemoteOpen(s: State, t: Tid, ok: bool): (s': State)
    requires Pc(s, t).RemoteOpen?
    ensures Framed(s, s', t) && s'.table == s.table && s'.spares == s.spares
  {
    var RemoteOpen(g, i, r) := Pc(s, t);
    if ok
    then SetPc(SetRes(s, r, At(s, r).(everOpened := true)).(opens := s.opens[g := Tally(s.opens, g) + 1]),
               t, Publish(g, i, r))
    else SetPc(s, t, OpenFail(g, r))
  }

  /** Store ACTIVE with one reference, or with none under FAM_INIT_ONLY. */
  function StepPublish(s: State, t: Tid): (s': State)
    requires Pc(s, t).Publish?
    ensures Framed(s, s', t) && s'.table == s.table && s'.spares == s.spares
  {
    var Publish(g, i, r) := Pc(s, t);
    var x := At(s, r).(owner := None, wasActive := true);
    if i.initOnly then SetPc(SetRes(s, r, x.(word := Concat(ACTIVE, 0))), t, Idle)
    else
      var k := s.nextToken;
      SetPc(SetRes(s, r, x.(word := Concat(ACTIVE, 1), holders := x.holders + {k}))
              .(tokens := s.tokens[k := Reference(r, None, false)], nextToken := k + 1), t, Idle)
  }

  /** The failure handler stores RELEASED and rethrows. */
  function StepOpenFail(s: State, t: Tid): (s': State)
    requires Pc(s, t).OpenFail?
    ensures Framed(s, s', t) && s'.table == s.table && s'.spares == s.spares
  {
    var r := Pc(s, t).r;
    SetPc(SetRes(s, r, At(s, r).(word := Concat(RELEASED, 0), owner := None)), t, Idle)
  }

  /** An open without registration calls the memory server before it owns anything. */
  function StepPlainRemote(s: State, t: Tid, ok: bool): (s': State)
    requires Pc(s, t).PlainRemote?
    ensures Framed(s, s', t) && s'.table == s.table
  {
    var PlainRemote(g, i, r, v) := Pc(s, t);
    if ok then
      var n := s.nextSpare;
      SetPc(s.(spares := s.spares[n := Spare(g, Some(t))], nextSpare := n + 1,
               opens := s.opens[g := Tally(s.opens, g) + 1]), t, PlainCas(g, i, r, v, n))
    else SetPc(s, t, PlainFail(g, r))
  }

  /** Then it tries to make the resource ACTIVE; if another thread was faster its remote open stays spare. */
  function StepPlainCas(s: State, t: Tid, spurious: bool): (s': State)
    requires Pc(s, t).PlainCas?
    ensures Framed(s, s', t) && s'.table == s.table
  {
    var PlainCas(g, i, r, v, n) := Pc(s, t);
    var x := At(s, r).(everOpened := true, wasActive := true);
    if At(s, r).word != v || spurious
    then SetPc(s.(spares := s.spares[n := Spare(g, None)]), t, OpenRead(g, i, r))
    else if i.initOnly
    then SetPc(SetRes(s, r, x.(word := Concat(ACTIVE, 0))).(spares := s.spares - {n}), t, Idle)
    else
      var k := s.nextToken;
      SetPc(SetRes(s, r, x.(word := Concat(ACTIVE, 1), holders := x.holders + {k}))
              .(spares := s.spares - {n}, tokens := s.tokens[k := Reference(r, None, false)], nextToken := k + 1),
            t, Idle)
  }

  /** Its failure handler stores RELEASED over whatever the word is by then. */
  function StepPlainFail(s: State, t: Tid): (s': State)
    requires Pc(s, t).PlainFail?
    ensures Framed(s, s', t) && s'.table == s.table && s'.spares == s.spares
  {
    var r := Pc(s, t).r;
    SetPc(SetRes(s, r, At(s, r).(word := Concat(RELEASED, 0))), t, Idle)
  }

  /** close_resource: table lookup; a missing entry would be dereferenced. */
  function StepCloseFind(s: State, t: Tid): (s': State)
    requires Pc(s, t).CloseFind?
    ensures Framed(s, s', t) && s'.table == s.table && s'.spares == s.spares
  {
    var CloseFind(g, k) := Pc(s, t);
    SetPc(s, t, if g in s.table then CloseRead(g, k, s.table[g], Word(0, 0)) else Crashed)
  }

  /** The word a close writes over an ACTIVE word. */
  function CloseWord(v: Word): Word {
    var n := if v.refcnt > 0 then v.refcnt - 1 else v.refcnt;
    if n == 0 then Concat(BUSY, 0) else Concat(ACTIVE, n)
  }

  /** On BUSY the `continue` still evaluates the loop condition, with whatever newValue holds. */
  function StepCloseRead(s: State, t: Tid): (s': State)
    requires Pc(s, t).CloseRead?
    ensures Framed(s, s', t) && s'.table == s.table && s'.spares == s.spares
  {
    var CloseRead(g, k, r, nv) := Pc(s, t);
    var v := At(s, r).word;
    SetPc(s, t, if v.status == ACTIVE then CloseCas(g, k, r, v, CloseWord(v))
                else if v.status == BUSY then CloseCas(g, k, r, v, nv)
                else Idle)
  }

  function StepCloseCas(s: State, t: Tid, spurious: bool): (s': State)
    requires Pc(s, t).CloseCas?
    ensures Framed(s, s', t) && s'.table == s.table && s'.spares == s.spares
  {
    var CloseCas(g, k, r, v, nv) := Pc(s, t);
    var x := At(s, r);
    if x.word == v && !spurious then
      var last := nv.status == BUSY;
      var y := x.(word := nv, holders := x.holders - {k}, owner := if last then Some(t) else x.owner);
      SetPc(SetRes(s, r, y).(tokens := s.tokens - {k}), t, if last then CloseRelease(g, r) else Idle)
    else SetPc(s, t, CloseRead(g, k, r, nv))
  }

  /** RELEASED is published before the remote close is sent. */
  function StepCloseRelease(s: State, t: Tid): (s': State)
    requires Pc(s, t).CloseRelease?
    ensures Framed(s, s', t) && s'.table == s.table && s'.spares == s.spares
  {
    var CloseRelease(g, r) := Pc(s, t);
    SetPc(SetRes(s, r, At(s, r).(word := Concat(RELEASED, 0))), t, CloseRemote(g, r))
  }

  function SendClose(s: State, t: Tid, g: RegionId, r: ResId, p: PC): (s': State)
    ensures Framed(s, s', t) && s'.table == s.table && s'.spares == s.spares
  {
    SetPc(SetRes(s, r, At(s, r).(everClosed := true, owner := None))
            .(closes := s.closes[g := Tally(s.closes, g) + 1]), t, p)
  }

  /** close_all_resources, under the table's write lock. */
  function StepAllLoop(s: State, t: Tid, c: Choice): (s': State)
    requires Pc(s, t).AllLoop? && Enabled(s, t, c)
    ensures Framed(s, s', t) && s'.table == s.table && s'.spares == s.spares
  {
    var todo := Pc(s, t).todo;
    if todo == {} then SetPc(s.(lock := None), t, Idle)
    else if c.region in s.table
    then SetPc(s, t, AllRead(todo - {c.region}, c.region, s.table[c.region]))
    else SetPc(s, t, AllLoop(todo - {c.region}))
  }

  /** release_resource: only an ACTIVE resource is released. */
  function StepAllRead(s: State, t: Tid): (s': State)
    requires Pc(s, t).AllRead?
    ensures Framed(s, s', t) && s'.table == s.table && s'.spares == s.spares
  {
    var AllRead(todo, g, r) := Pc(s, t);
    var v := At(s, r).word;
    SetPc(s, t, if v.status == ACTIVE then AllCas(todo, g, r, v) else AllLoop(todo))
  }

  /** The references on r that no lookup will use any more: dropped ones, and ones whose close has looked up. */
  function Spent(s: State, r: ResId): set<Token> {
    set k | k in s.tokens && s.tokens[k].res == r &&
      (s.tokens[k].dropped || (s.tokens[k].closer.Some? && !Pc(s, s.tokens[k].closer.value).CloseFind?))
  }

  /** Releasing a resource ends them; other references stay with their holders. */
  function StepAllCas(s: State, t: Tid, spurious: bool): (s': State)
    requires Pc(s, t).AllCas?
    ensures Framed(s, s', t) && s'.table == s.table && s'.spares == s.spares
  {
    var AllCas(todo, g, r, v) := Pc(s, t);
    var x := At(s, r);
    if x.word == v && !spurious
    then SetPc(SetRes(s, r, x.(word := Concat(RELEASED, 0), holders := {}, owner := Some(t)))
                 .(tokens := s.tokens - Spent(s, r)), t, AllErase(todo, g, r))
    else SetPc(s, t, AllRead(todo, g, r))
  }

  function StepAllErase(s: State, t: Tid): (s': State)
    requires Pc(s, t).AllErase?
    ensures Framed(s, s', t) && s'.spares == s.spares
  {
    var AllErase(todo, g, r) := Pc(s, t);
    SetPc(s.(table := s.table - {g}, garbage := s.garbage + [r]), t, AllRemote(todo, g, r))
  }

  /** One step of thread t under the environment's choice. */
  function Do(s: State, t: Tid, c: Choice): State
    requires Enabled(s, t, c)
  {
    match Pc(s, t)
    case Idle => StepIdle(s, t, c)
    case FindRead(_, _) => StepFindRead(s, t)
    case FindWrite(_, _) => StepFindWrite(s, t)
    case OpenRead(_, _, _) => StepOpenRead(s, t)
    case OpenCas(_, _, _, _) => StepOpenCas(s, t, c.spurious)
    case OpenInitCas(_, _, _, _) => StepOpenInitCas(s, t, c.spurious)
    case RemoteOpen(_, _, _) => StepRemoteOpen(s, t, c.ok)
    case Publish(_, _, _) => StepPublish(s, t)
    case OpenFail(_, _) => StepOpenFail(s, t)
    case PlainRemote(_, _, _, _) => StepPlainRemote(s, t, c.ok)
    case PlainCas(_, _, _, _, _) => StepPlainCas(s, t, c.spurious)
    case PlainFail(_, _) => StepPlainFail(s, t)
    case CloseFind(_, _) => StepCloseFind(s, t)
    case CloseRead(_, _, _, _) => StepCloseRead(s, t)
    case CloseCas(_, _, _, _, _) => StepCloseCas(s, t, c.spurious)
    case CloseRelease(_, _) => StepCloseRelease(s, t)
    case CloseRemote(g, r) => SendClose(s, t, g, r, Idle)
    case AllLoop(_) => StepAllLoop(s, t, c)
    case AllRead(_, _, _) => StepAllRead(s, t)
    case AllCas(_, _, _, _) => StepAllCas(s, t, c.spurious)
    case AllErase(_, _, _) => StepAllErase(s, t)
    case AllRemote(todo, g, r) => SendClose(s, t, g, r, AllLoop(todo))
  }
}
