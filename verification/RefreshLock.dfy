/**
 Locking a resource's status word while its memory map is refreshed.

 The compare-and-swap may fail spuriously; `failures` says how often it does.  No other
 thread changes the word during the call.
 */
module RefreshLock {
  import opened StatusWord

  const ZERO := Word(0, 0)

  class Cell {
    var word: Word

    constructor (w: Word)
      ensures word == w
    {
      word := w;
    }

    /** atomic_compare_exchange_weak. */
    method CompareAndSwap(expected: Word, desired: Word, spurious: bool) returns (ok: bool)
      modifies this
      ensures ok <==> !spurious && old(word) == expected
      ensures word == if ok then desired else old(word)
    {
      ok := !spurious && word == expected;
      if ok {
        word := desired;
      }
    }

    /** Locks an ACTIVE word keeping its count, refuses INACTIVE and RELEASED ones; on a BUSY word
        the `continue` still reaches the compare-and-swap, which stores the initial zero. */
    method Lock(failures: nat) returns (ok: bool)
      requires word.refcnt < REFCNT_LIMIT
      modifies this
      ensures old(word).status == ACTIVE ==> ok && word == old(word).(status := BUSY)
      ensures old(word).status == BUSY ==> ok && word == ZERO
      ensures old(word).status != ACTIVE && old(word).status != BUSY ==> !ok && word == old(word)
    {
      var newValue, n := ZERO, failures;
      ok := false;
      while !ok
        invariant if ok then word == newValue else word == old(word)
        invariant old(word).status == BUSY ==> newValue == ZERO
        invariant ok ==>
          old(word).status == BUSY || (old(word).status == ACTIVE && newValue == old(word).(status := BUSY))
        decreases if ok then 0 else 1, n
      {
        var readValue := word;
        if readValue.status != BUSY {
          if readValue.status != ACTIVE {
            return false;
          }
          newValue := Concat(BUSY, readValue.refcnt);
        }
        ok := CompareAndSwap(readValue, newValue, n > 0);
        n := if n > 0 then n - 1 else 0;
      }
    }

    method Unlock(failures: nat)
      requires word.refcnt < REFCNT_LIMIT
      modifies this
      ensures word == if old(word).status == BUSY then old(word).(status := ACTIVE) else old(word)
    {
      var done, n := false, failures;
      while !done
        invariant if done then old(word).status == BUSY && word == old(word).(status := ACTIVE) else word == old(word)
        decreases if done then 0 else 1, n
      {
        var readValue := word;
        if readValue.status != BUSY {
          return;
        }
        done := CompareAndSwap(readValue, Concat(ACTIVE, readValue.refcnt), n > 0);
        n := if n > 0 then n - 1 else 0;
      }
    }

    /** Locking and unlocking leaves every word as it was, except a BUSY one: that one loses status and count. */
    method Refresh(failures: nat) returns (locked: bool)
      requires word.refcnt < REFCNT_LIMIT
      modifies this
      ensures word == old(word) <==> old(word).status != BUSY
      ensures locked <==> old(word).status == ACTIVE || old(word).status == BUSY
    {
      locked := Lock(failures);
      if locked {
        Unlock(failures);
      }
    }
  }

  /** A second refresh while the first holds the lock wipes out three references. */
  method SecondRefreshLosesCount() returns (word: Word)
    ensures word == ZERO
  {
    var cell := new Cell(Word(ACTIVE, 3));
    var first := cell.Lock(0);
    assert cell.word == Word(BUSY, 3);
    var second := cell.Lock(0);
    word := cell.word;
  }
}
