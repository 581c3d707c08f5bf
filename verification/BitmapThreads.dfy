/**
 The bitmap shared by any number of threads that reserve clear bits and reset the
 bits they hold.  A step is one atomic word access.
 */
module BitmapThreads {
  import opened BitWord
  import opened Bitmap

  type Tid = nat

  datatype PC =
    | Idle
    | Scan(i: nat)                        // find_and_reserve, about to look at bit i
    | ReserveRead(i: nat)                 // bitmap_reserve, about to read the word of bit i
    | ReserveTry(i: nat, oldValue: bv64)  // about to check and compare-and-store
    | ResetRead(n: nat)
    | ResetTry(n: nat, oldValue: bv64)

  datatype State = State(words: seq<bv64>, held: set<(Tid, nat)>, pcs: map<Tid, PC>)

  datatype Choice = StartFind(start: nat) | StartReset(n: nat) | Go

  function Pc(s: State, t: Tid): PC { if t in s.pcs then s.pcs[t] else Idle }

  function To(s: State, t: Tid, p: PC): State { s.(pcs := s.pcs[t := p]) }

  function Size(s: State): nat { BITSIZE * |s.words| }

  predicate InRange(s: State, p: PC) {
    match p
    case Idle => true
    case Scan(_) => true
    case ReserveRead(i) => i < Size(s)
    case ReserveTry(i, _) => i < Size(s)
    case ResetRead(n) => n < Size(s)
    case ResetTry(n, _) => n < Size(s)
  }

  /** A thread may only reset a bit it holds. */
  predicate Enabled(s: State, t: Tid, c: Choice) {
    && InRange(s, Pc(s, t))
    && match c
       case StartFind(_) => Pc(s, t).Idle?
       case StartReset(n) => Pc(s, t).Idle? && (t, n) in s.held && n < Size(s)
       case Go => !Pc(s, t).Idle?
  }

  /** The compare-and-store of bitmap_reserve(false): fails for good once the bit is set. */
  function TryReserve(s: State, t: Tid, i: nat, oldValue: bv64): State
    requires i < Size(s)
  {
    var word := s.words[i / BITSIZE];
    if Get(oldValue, Pos(i)) then To(s, t, Scan(i + 1))
    else if word == oldValue then
      To(State(s.words[i / BITSIZE := Set(oldValue, Pos(i))], s.held + {(t, i)}, s.pcs), t, Idle)
    else if Get(word, Pos(i)) then To(s, t, Scan(i + 1))
    else To(s, t, ReserveTry(i, word))
  }

  function TryReset(s: State, t: Tid, n: nat, oldValue: bv64): State
    requires n < Size(s)
  {
    var word := s.words[n / BITSIZE];
    if word == oldValue then
      To(State(s.words[n / BITSIZE := Reset(oldValue, Pos(n))], s.held - {(t, n)}, s.pcs), t, Idle)
    else To(s, t, ResetTry(n, word))
  }

  function Do(s: State, t: Tid, c: Choice): State
    requires Enabled(s, t, c)
  {
    match Pc(s, t)
    case Idle => (match c
                  case StartFind(start) => To(s, t, Scan(start))
                  case StartReset(n) => To(s, t, ResetRead(n)))
    case Scan(i) =>
      if i >= Size(s) then To(s, t, Idle)
      else if BitOf(s.words, i) then To(s, t, Scan(i + 1))
      else To(s, t, ReserveRead(i))
    case ReserveRead(i) => To(s, t, ReserveTry(i, s.words[i / BITSIZE]))
    case ReserveTry(i, oldValue) => TryReserve(s, t, i, oldValue)
    case ResetRead(n) => To(s, t, ResetTry(n, s.words[n / BITSIZE]))
    case ResetTry(n, oldValue) => TryReset(s, t, n, oldValue)
  }

  /** The bit a thread is working on. */
  predicate Target(p: PC, n: nat) {
    match p
    case ReserveTry(i, _) => i == n
    case ResetTry(i, _) => i == n
    case _ => false
  }

  /** A step changes at most the bit its thread is working on, whatever else its word holds. */
  lemma StepChangesOwnBit(s: State, t: Tid, c: Choice, m: nat)
    requires Enabled(s, t, c) && m < Size(s)
    ensures Size(Do(s, t, c)) == Size(s)
    ensures BitOf(Do(s, t, c).words, m) != BitOf(s.words, m) ==> Target(Pc(s, t), m)
  {
    match Pc(s, t)
    case ReserveTry(i, oldValue) => WithBitOnly(s.words, i, true, m);
    case ResetTry(n, oldValue) => WithBitOnly(s.words, n, false, m);
    case _ =>
  }

  ghost predicate Inv(s: State) {
    && (forall n :: 0 <= n < Size(s) ==> (BitOf(s.words, n) <==> Held(s, n)))
    && (forall t, u, n :: (t, n) in s.held && (u, n) in s.held ==> t == u)
    && (forall t, n :: (t, n) in s.held ==> n < Size(s))
    && (forall t :: ThreadOk(s, t))
  }

  ghost predicate Held(s: State, n: nat) { exists t :: (t, n) in s.held }

  predicate ThreadOk(s: State, t: Tid) {
    && InRange(s, Pc(s, t))
    && (Pc(s, t).ResetRead? ==> (t, Pc(s, t).n) in s.held)
    && (Pc(s, t).ResetTry? ==> (t, Pc(s, t).n) in s.held)
  }

  lemma KeepsReserve(s: State, t: Tid)
    requires Inv(s) && Pc(s, t).ReserveTry? && ThreadOk(s, t)
    ensures Inv(TryReserve(s, t, Pc(s, t).i, Pc(s, t).oldValue))
  {
    var i, oldValue := Pc(s, t).i, Pc(s, t).oldValue;
    var s' := TryReserve(s, t, i, oldValue);
    forall u ensures ThreadOk(s', u) { assert ThreadOk(s, u); }
    if !Get(oldValue, Pos(i)) && s.words[i / BITSIZE] == oldValue {
      assert !Held(s, i);
      forall n | 0 <= n < Size(s') ensures BitOf(s'.words, n) <==> Held(s', n) {
        WithBitOnly(s.words, i, true, n);
        if n == i {
          assert (t, i) in s'.held;
        } else if Held(s, n) {
          var u :| (u, n) in s.held;
          assert (u, n) in s'.held;
        }
      }
    } else {
      forall n | 0 <= n < Size(s') ensures BitOf(s'.words, n) <==> Held(s', n) {
        assert Held(s, n) <==> Held(s', n);
      }
    }
  }

  lemma KeepsReset(s: State, t: Tid)
    requires Inv(s) && Pc(s, t).ResetTry? && ThreadOk(s, t)
    ensures Inv(TryReset(s, t, Pc(s, t).n, Pc(s, t).oldValue))
  {
    var i, oldValue := Pc(s, t).n, Pc(s, t).oldValue;
    var s' := TryReset(s, t, i, oldValue);
    forall u ensures ThreadOk(s', u) { assert ThreadOk(s, u); }
    if s.words[i / BITSIZE] == oldValue {
      forall n | 0 <= n < Size(s') ensures BitOf(s'.words, n) <==> Held(s', n) {
        WithBitOnly(s.words, i, false, n);
        if n != i && Held(s, n) {
          var u :| (u, n) in s.held;
          assert (u, n) in s'.held;
        }
      }
    } else {
      forall n | 0 <= n < Size(s') ensures BitOf(s'.words, n) <==> Held(s', n) {
        assert Held(s, n) <==> Held(s', n);
      }
    }
  }

  lemma KeepsMove(s: State, t: Tid, p: PC)
    requires Inv(s) && ThreadOk(To(s, t, p), t)
    ensures Inv(To(s, t, p))
  {
    var s' := To(s, t, p);
    forall u ensures ThreadOk(s', u) { assert ThreadOk(s, u); }
    forall n | 0 <= n < Size(s') ensures BitOf(s'.words, n) <==> Held(s', n) {
      assert Held(s, n) <==> Held(s', n);
    }
  }

  lemma StepKeepsInv(s: State, t: Tid, c: Choice)
    requires Inv(s) && Enabled(s, t, c)
    ensures Inv(Do(s, t, c))
  {
    assert ThreadOk(s, t);
    match Pc(s, t)
    case ReserveTry(_, _) => KeepsReserve(s, t);
    case ResetTry(_, _) => KeepsReset(s, t);
    case _ => KeepsMove(s, t, Pc(Do(s, t, c), t));
  }

  ghost predicate Next(s: State, s': State) {
    exists t, c :: Enabled(s, t, c) && s' == Do(s, t, c)
  }

  /** An all-clear bitmap that nobody uses yet. */
  ghost predicate IsStart(s: State) {
    s == State(s.words, {}, map[]) && forall j :: 0 <= j < |s.words| ==> s.words[j] == 0
  }

  /** Any interleaving, from an all-clear bitmap. */
  ghost predicate IsRun(run: seq<State>) {
    && |run| > 0 && IsStart(run[0])
    && forall i :: 0 <= i < |run| - 1 ==> Next(run[i], run[i + 1])
  }

  lemma {:induction false} RunInv(run: seq<State>, i: nat)
    requires IsRun(run) && i < |run|
    ensures Inv(run[i])
  {
    if i == 0 {
      forall n | 0 <= n < Size(run[0]) ensures !BitOf(run[0].words, n) {
        assert run[0].words[n / BITSIZE] == 0;
        ZeroWord(Pos(n));
      }
    } else {
      RunInv(run, i - 1);
      assert Next(run[i - 1], run[i - 1 + 1]);
      var t, c :| Enabled(run[i - 1], t, c) && run[i] == Do(run[i - 1], t, c);
      StepKeepsInv(run[i - 1], t, c);
    }
  }

  /** In every run the set bits are exactly the held bits, and no bit has two holders. */
  lemma ReservationIsExclusive(run: seq<State>, i: nat)
    requires IsRun(run) && i < |run|
    ensures forall n :: 0 <= n < Size(run[i]) ==> (BitOf(run[i].words, n) <==> exists t :: (t, n) in run[i].held)
    ensures forall t, u, n :: (t, n) in run[i].held && (u, n) in run[i].held ==> t == u
  {
    RunInv(run, i);
    forall n | 0 <= n < Size(run[i]) ensures BitOf(run[i].words, n) <==> exists t :: (t, n) in run[i].held {
      assert Held(run[i], n) <==> exists t :: (t, n) in run[i].held;
    }
  }
}
