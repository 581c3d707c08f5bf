/**
 What a finished call on the shared bitmap has done, in every run: a search has reserved
 one bit or seen every bit taken, a reset has given its bit back.
 */
module BitmapCalls {
  import opened BitWord
  import opened Bitmap
  import opened BitmapThreads

  datatype Act = Act(t: Tid, c: Choice)

  predicate Takes(s: State, a: Act, s': State) { Enabled(s, a.t, a.c) && s' == Do(s, a.t, a.c) }

  /** A run together with who took which step. */
  ghost predicate IsTrace(run: seq<State>, acts: seq<Act>) {
    && |run| == |acts| + 1 && IsStart(run[0])
    && forall n :: 0 <= n < |acts| ==> Takes(run[n], acts[n], run[n + 1])
  }

  lemma TraceIsRun(run: seq<State>, acts: seq<Act>)
    requires IsTrace(run, acts)
    ensures IsRun(run)
  {
    forall n | 0 <= n < |run| - 1 ensures Next(run[n], run[n + 1]) { assert Takes(run[n], acts[n], run[n + 1]); }
  }

  lemma TraceInv(run: seq<State>, acts: seq<Act>, m: nat)
    requires IsTrace(run, acts) && m < |run|
    ensures Inv(run[m])
  {
    TraceIsRun(run, acts);
    RunInv(run, m);
  }

  /** Every run is such a trace. */
  lemma {:induction false} RunHasTrace(run: seq<State>) returns (acts: seq<Act>)
    requires IsRun(run)
    ensures IsTrace(run, acts)
  {
    acts := [];
    while |acts| < |run| - 1
      invariant |acts| <= |run| - 1
      invariant forall n :: 0 <= n < |acts| ==> Takes(run[n], acts[n], run[n + 1])
    {
      var n := |acts|;
      assert Next(run[n], run[n + 1]);
      var t, c :| Enabled(run[n], t, c) && run[n + 1] == Do(run[n], t, c);
      acts := acts + [Act(t, c)];
    }
  }

  /** Thread t makes a call that starts with step i and is back at j. */
  ghost predicate IsCall(run: seq<State>, acts: seq<Act>, t: Tid, c: Choice, i: nat, j: nat) {
    && IsTrace(run, acts) && i < j < |run| && acts[i] == Act(t, c) && Pc(run[i], t).Idle? && Pc(run[j], t).Idle?
    && forall m :: i < m < j ==> !Pc(run[m], t).Idle?
  }

  // -------------------------------------------------------------------------
  // What other threads leave alone

  ghost predicate SameBits(s: State, s': State, t: Tid) { forall n :: (t, n) in s'.held <==> (t, n) in s.held }

  lemma OtherKeepsMine(s: State, a: Act, s': State, t: Tid)
    requires Takes(s, a, s') && a.t != t
    ensures Pc(s', t) == Pc(s, t) && SameBits(s, s', t)
  {
  }

  lemma {:induction false} SizeStays(run: seq<State>, acts: seq<Act>, m: nat)
    requires IsTrace(run, acts) && m < |run|
    ensures Size(run[m]) == Size(run[0])
  {
    if m > 0 {
      SizeStays(run, acts, m - 1);
      assert Takes(run[m - 1], acts[m - 1], run[m - 1 + 1]);
    }
  }

  // -------------------------------------------------------------------------
  // Searches

  /** Bit b was set in some state from i to m. */
  ghost predicate WasSet(run: seq<State>, i: nat, m: nat, b: nat)
    requires m < |run|
  {
    exists n :: i <= n <= m && b < Size(run[n]) && BitOf(run[n].words, b)
  }

  /** Every bit from start up to k was. */
  ghost predicate AllWereSet(run: seq<State>, i: nat, m: nat, start: nat, k: nat)
    requires m < |run|
  {
    forall b :: start <= b < k && b < Size(run[0]) ==> WasSet(run, i, m, b)
  }

  /** The word of bit k had that value in some state from i to m. */
  ghost predicate WasWord(run: seq<State>, i: nat, m: nat, k: nat, value: bv64)
    requires m < |run|
  {
    exists n :: i <= n <= m && k < Size(run[n]) && run[n].words[k / BITSIZE] == value
  }

  /** The search has added bit b, the first it did not see taken. */
  ghost predicate FoundAt(run: seq<State>, i: nat, m: nat, t: Tid, start: nat, b: nat)
    requires i <= m < |run|
  {
    && start <= b < Size(run[m]) && BitOf(run[m].words, b) && (t, b) !in run[i].held
    && (forall n :: (t, n) in run[m].held <==> (t, n) in run[i].held || n == b)
    && AllWereSet(run, i, m, start, b)
  }

  ghost predicate NothingFound(run: seq<State>, i: nat, m: nat, t: Tid, start: nat)
    requires i <= m < |run|
  {
    SameBits(run[i], run[m], t) && AllWereSet(run, i, m, start, Size(run[0]))
  }

  /** How far the search has come. */
  ghost predicate SearchAt(run: seq<State>, i: nat, m: nat, t: Tid, start: nat)
    requires i <= m < |run|
  {
    match Pc(run[m], t)
    case Scan(k) => start <= k && SameBits(run[i], run[m], t) && AllWereSet(run, i, m, start, k)
    case ReserveRead(k) => start <= k && SameBits(run[i], run[m], t) && AllWereSet(run, i, m, start, k)
    case ReserveTry(k, oldValue) =>
      && start <= k && SameBits(run[i], run[m], t) && AllWereSet(run, i, m, start, k)
      && WasWord(run, i, m, k, oldValue)
    case Idle => (exists b :: FoundAt(run, i, m, t, start, b)) || NothingFound(run, i, m, t, start)
    case _ => false
  }

  lemma StillWasSet(run: seq<State>, i: nat, m: nat, b: nat)
    requires m + 1 < |run|
    ensures WasSet(run, i, m, b) ==> WasSet(run, i, m + 1, b)
  {
  }

  lemma MoreStates(run: seq<State>, i: nat, m: nat, start: nat, k: nat)
    requires m + 1 < |run| && AllWereSet(run, i, m, start, k)
    ensures AllWereSet(run, i, m + 1, start, k)
  {
    var m' := m + 1;
    forall b | start <= b < k && b < Size(run[0]) ensures WasSet(run, i, m', b) { StillWasSet(run, i, m, b); }
  }

  lemma OneMoreBit(run: seq<State>, i: nat, m: nat, start: nat, k: nat)
    requires m < |run| && AllWereSet(run, i, m, start, k) && WasSet(run, i, m, k)
    ensures AllWereSet(run, i, m, start, k + 1)
  {
  }

  /** A word that once had bit k set is a state in which the bit was. */
  lemma WordShowsBit(run: seq<State>, i: nat, m: nat, k: nat, value: bv64)
    requires m < |run| && WasWord(run, i, m, k, value) && Get(value, Pos(k))
    ensures WasSet(run, i, m, k)
  {
    var n :| i <= n <= m && k < Size(run[n]) && run[n].words[k / BITSIZE] == value;
    assert BitOf(run[n].words, k);
  }

  lemma OtherSearch(run: seq<State>, acts: seq<Act>, i: nat, m: nat, t: Tid, start: nat)
    requires IsTrace(run, acts) && i <= m < |acts| && SearchAt(run, i, m, t, start) && acts[m].t != t
    requires !Pc(run[m], t).Idle?
    ensures SearchAt(run, i, m + 1, t, start)
  {
    assert Takes(run[m], acts[m], run[m + 1]);
    OtherKeepsMine(run[m], acts[m], run[m + 1], t);
    var p := Pc(run[m], t);
    if p.Scan? || p.ReserveRead? || p.ReserveTry? { MoreStates(run, i, m, start, p.i); }
    if p.ReserveTry? {
      var n :| i <= n <= m && p.i < Size(run[n]) && run[n].words[p.i / BITSIZE] == p.oldValue;
    }
  }

  lemma ScanStep(run: seq<State>, acts: seq<Act>, i: nat, m: nat, t: Tid, start: nat, k: nat)
    requires IsTrace(run, acts) && i <= m < |acts| && SearchAt(run, i, m, t, start) && acts[m] == Act(t, Go)
    requires Pc(run[m], t) == Scan(k)
    ensures SearchAt(run, i, m + 1, t, start)
  {
    assert Takes(run[m], acts[m], run[m + 1]);
    SizeStays(run, acts, m);
    MoreStates(run, i, m, start, k);
    if k >= Size(run[m]) {
      assert NothingFound(run, i, m + 1, t, start);
    } else if BitOf(run[m].words, k) {
      assert WasSet(run, i, m + 1, k);
      OneMoreBit(run, i, m + 1, start, k);
    }
  }

  lemma ReadStep(run: seq<State>, acts: seq<Act>, i: nat, m: nat, t: Tid, start: nat, k: nat)
    requires IsTrace(run, acts) && i <= m < |acts| && SearchAt(run, i, m, t, start) && acts[m] == Act(t, Go)
    requires Pc(run[m], t) == ReserveRead(k)
    ensures SearchAt(run, i, m + 1, t, start)
  {
    assert Takes(run[m], acts[m], run[m + 1]);
    MoreStates(run, i, m, start, k);
    assert run[m].words[k / BITSIZE] == Pc(run[m + 1], t).oldValue;
  }

  lemma TryStep(run: seq<State>, acts: seq<Act>, i: nat, m: nat, t: Tid, start: nat, k: nat, oldValue: bv64)
    requires IsTrace(run, acts) && i <= m < |acts| && SearchAt(run, i, m, t, start) && acts[m] == Act(t, Go)
    requires Pc(run[m], t) == ReserveTry(k, oldValue)
    ensures SearchAt(run, i, m + 1, t, start)
  {
    assert Takes(run[m], acts[m], run[m + 1]);
    MoreStates(run, i, m, start, k);
    var word := run[m].words[k / BITSIZE];
    if Get(oldValue, Pos(k)) {
      WordShowsBit(run, i, m, k, oldValue);
      assert WasSet(run, i, m + 1, k);
      OneMoreBit(run, i, m + 1, start, k);
    } else if word == oldValue {
      TraceInv(run, acts, m);
      assert !Held(run[m], k);
      WithBitOnly(run[m].words, k, true, k);
      assert FoundAt(run, i, m + 1, t, start, k);
    } else if Get(word, Pos(k)) {
      assert BitOf(run[m].words, k);
      assert WasSet(run, i, m + 1, k);
      OneMoreBit(run, i, m + 1, start, k);
    } else {
      assert run[m].words[k / BITSIZE] == Pc(run[m + 1], t).oldValue;
    }
  }

  lemma SearchStep(run: seq<State>, acts: seq<Act>, i: nat, m: nat, t: Tid, start: nat)
    requires IsTrace(run, acts) && i <= m < |acts| && SearchAt(run, i, m, t, start) && !Pc(run[m], t).Idle?
    ensures SearchAt(run, i, m + 1, t, start)
  {
    assert Takes(run[m], acts[m], run[m + 1]);
    if acts[m].t != t {
      OtherSearch(run, acts, i, m, t, start);
    } else {
      match Pc(run[m], t)
      case Scan(k) => ScanStep(run, acts, i, m, t, start, k);
      case ReserveRead(k) => ReadStep(run, acts, i, m, t, start, k);
      case ReserveTry(k, oldValue) => TryStep(run, acts, i, m, t, start, k, oldValue);
    }
  }

  lemma SearchBegins(run: seq<State>, acts: seq<Act>, i: nat, t: Tid, start: nat)
    requires IsTrace(run, acts) && i < |acts| && acts[i] == Act(t, StartFind(start)) && Pc(run[i], t).Idle?
    ensures SearchAt(run, i, i + 1, t, start)
  {
    assert Takes(run[i], acts[i], run[i + 1]);
  }

  ghost predicate SearchGoesOn(run: seq<State>, i: nat, m: nat, t: Tid, start: nat)
    requires i <= m && m + 1 < |run|
  {
    SearchAt(run, i, m, t, start) ==> SearchAt(run, i, m + 1, t, start)
  }

  lemma {:induction false} SearchThroughout(run: seq<State>, t: Tid, start: nat, i: nat, m: nat)
    requires i < m < |run| && SearchAt(run, i, i + 1, t, start)
    requires forall n :: i < n < m ==> SearchGoesOn(run, i, n, t, start)
    ensures SearchAt(run, i, m, t, start)
  {
    if m > i + 1 {
      SearchThroughout(run, t, start, i, m - 1);
      assert SearchGoesOn(run, i, m - 1, t, start);
    }
  }

  /** In every run, a search from `start` that has returned has either added exactly one bit at or after `start`, and
      every earlier bit from `start` on was set in some state since the call began, or it has added none and
      every bit from `start` to the size was. */
  lemma FinishedSearch(run: seq<State>, acts: seq<Act>, t: Tid, start: nat, i: nat, j: nat)
    requires IsCall(run, acts, t, StartFind(start), i, j)
    ensures (exists b :: FoundAt(run, i, j, t, start, b)) || NothingFound(run, i, j, t, start)
  {
    SearchBegins(run, acts, i, t, start);
    forall m | i < m < j ensures SearchGoesOn(run, i, m, t, start) {
      if SearchAt(run, i, m, t, start) { SearchStep(run, acts, i, m, t, start); }
    }
    SearchThroughout(run, t, start, i, j);
  }

  // -------------------------------------------------------------------------
  // Resets

  ghost predicate ResetAt(run: seq<State>, i: nat, m: nat, t: Tid, n: nat)
    requires i <= m < |run|
  {
    match Pc(run[m], t)
    case ResetRead(k) => k == n && SameBits(run[i], run[m], t)
    case ResetTry(k, _) => k == n && SameBits(run[i], run[m], t)
    case Idle =>
      && n < Size(run[m]) && !BitOf(run[m].words, n)
      && forall k :: (t, k) in run[m].held <==> (t, k) in run[i].held && k != n
    case _ => false
  }

  lemma ResetStep(run: seq<State>, acts: seq<Act>, i: nat, m: nat, t: Tid, n: nat)
    requires IsTrace(run, acts) && i <= m < |acts| && ResetAt(run, i, m, t, n) && !Pc(run[m], t).Idle?
    ensures ResetAt(run, i, m + 1, t, n)
  {
    assert Takes(run[m], acts[m], run[m + 1]);
    if acts[m].t != t {
      OtherKeepsMine(run[m], acts[m], run[m + 1], t);
    } else if Pc(run[m], t).ResetTry? {
      WithBitOnly(run[m].words, n, false, n);
    }
  }

  lemma ResetBegins(run: seq<State>, acts: seq<Act>, i: nat, t: Tid, n: nat)
    requires IsTrace(run, acts) && i < |acts| && acts[i] == Act(t, StartReset(n)) && Pc(run[i], t).Idle?
    ensures ResetAt(run, i, i + 1, t, n)
  {
    assert Takes(run[i], acts[i], run[i + 1]);
  }

  ghost predicate ResetGoesOn(run: seq<State>, i: nat, m: nat, t: Tid, n: nat)
    requires i <= m && m + 1 < |run|
  {
    ResetAt(run, i, m, t, n) ==> ResetAt(run, i, m + 1, t, n)
  }

  lemma {:induction false} ResetThroughout(run: seq<State>, t: Tid, n: nat, i: nat, m: nat)
    requires i < m < |run| && ResetAt(run, i, i + 1, t, n)
    requires forall k :: i < k < m ==> ResetGoesOn(run, i, k, t, n)
    ensures ResetAt(run, i, m, t, n)
  {
    if m > i + 1 {
      ResetThroughout(run, t, n, i, m - 1);
      assert ResetGoesOn(run, i, m - 1, t, n);
    }
  }

  /** In every run, a reset that has returned has cleared its bit and given back that bit alone. */
  lemma FinishedReset(run: seq<State>, acts: seq<Act>, t: Tid, n: nat, i: nat, j: nat)
    requires IsCall(run, acts, t, StartReset(n), i, j)
    ensures n < Size(run[j]) && !BitOf(run[j].words, n)
    ensures forall k :: (t, k) in run[j].held <==> (t, k) in run[i].held && k != n
  {
    ResetBegins(run, acts, i, t, n);
    forall m | i < m < j ensures ResetGoesOn(run, i, m, t, n) {
      if ResetAt(run, i, m, t, n) { ResetStep(run, acts, i, m, t, n); }
    }
    ResetThroughout(run, t, n, i, j);
  }
}
