/**
 The bitmap that hands out ids: 64-bit words changed by compare-and-store, seen as
 a plain sequence of bits.
 */
module Bitmap {
  import opened BitWord

  const BITSIZE := 64
  const NOTFOUND := -1

  /** n % BITSIZE, as a shift count. */
  function Pos(n: nat): (p: bv8)
    ensures p < 64
  {
    (n % BITSIZE) as bv8
  }

  lemma PosIs(n: nat)
    ensures Pos(n) as nat == n % BITSIZE
  {
    SmallBits(n % BITSIZE);
  }

  // -------------------------------------------------------------------------
  // Words as bits

  predicate BitOf(words: seq<bv64>, n: nat)
    requires n < BITSIZE * |words|
  {
    Get(words[n / BITSIZE], Pos(n))
  }

  function WithBit(words: seq<bv64>, n: nat, v: bool): seq<bv64>
    requires n < BITSIZE * |words|
  {
    words[n / BITSIZE := if v then Set(words[n / BITSIZE], Pos(n)) else Reset(words[n / BITSIZE], Pos(n))]
  }

  /** Changing a bit of a word changes that bit and no other. */
  lemma WordBit(word: bv64, p: bv8, q: bv8, v: bool)
    requires p < 64 && q < 64
    ensures Get(if v then Set(word, p) else Reset(word, p), q) == if p == q then v else Get(word, q)
  {
    if p == q {
      SetSame(word, p);
    } else {
      SetOther(word, p, q);
      ResetOther(word, p, q);
    }
  }

  /** Two bits at the same position of the same word are the same bit. */
  lemma SamePlaceIff(n: nat, m: nat)
    ensures n == m <==> n / BITSIZE == m / BITSIZE && Pos(n) == Pos(m)
  {
    PosIs(n);
    PosIs(m);
  }

  /** Changing bit n of its word changes bit n of the bitmap and no other. */
  lemma WithBitOnly(words: seq<bv64>, n: nat, v: bool, m: nat)
    requires n < BITSIZE * |words| && m < BITSIZE * |words|
    ensures BitOf(WithBit(words, n, v), m) == if m == n then v else BitOf(words, m)
  {
    SamePlaceIff(n, m);
    WordBit(words[n / BITSIZE], Pos(n), Pos(m), v);
  }

  function Bits(words: seq<bv64>): (bits: seq<bool>)
    ensures |bits| == BITSIZE * |words|
    ensures forall n :: 0 <= n < |bits| ==> bits[n] == BitOf(words, n)
  {
    seq(BITSIZE * |words|, n requires 0 <= n < BITSIZE * |words| => BitOf(words, n))
  }

  lemma BitsWithBit(words: seq<bv64>, n: nat, v: bool)
    requires n < BITSIZE * |words|
    ensures Bits(WithBit(words, n, v)) == Bits(words)[n := v]
  {
    forall m | 0 <= m < BITSIZE * |words| ensures Bits(WithBit(words, n, v))[m] == Bits(words)[n := v][m] {
      WithBitOnly(words, n, v, m);
    }
  }

  /** Index r is the first v at or after start, or NOTFOUND and there is none. */
  predicate IsFirst(bits: seq<bool>, v: bool, start: nat, r: int) {
    if r == NOTFOUND then forall i :: start <= i < |bits| ==> bits[i] != v
    else start <= r < |bits| && bits[r] == v && forall i :: start <= i < r ==> bits[i] != v
  }

  class AtomicBitmap {
    var map_: array<bv64>
    const size: nat     // in bytes

    ghost predicate Valid()
      reads this
    {
      size == 8 * map_.Length
    }

    ghost function Contents(): seq<bool>
      reads this, map_
    {
      Bits(map_[..])
    }

    /** Registers size bytes and zeroes every word. */
    constructor (size: nat)
      requires size % 8 == 0
      ensures Valid() && fresh(map_) && this.size == size
      ensures forall n :: 0 <= n < |Contents()| ==> !Contents()[n]
    {
      this.size := size;
      map_ := new bv64[size / 8];
      new;
      for i := 0 to map_.Length
        invariant map_.Length == size / 8 && fresh(map_)
        invariant forall j :: 0 <= j < i ==> map_[j] == 0
      {
        map_[i] := 0;
      }
      forall n | 0 <= n < |Contents()| ensures !Contents()[n] { ZeroWord(Pos(n)); }
    }

    method CompareStore(offset: nat, oldValue: bv64, newValue: bv64) returns (result: bv64)
      requires offset < map_.Length
      modifies map_
      ensures result == old(map_[offset])
      ensures map_[..] == if result == oldValue then old(map_[..])[offset := newValue] else old(map_[..])
    {
      result := map_[offset];
      if result == oldValue { map_[offset] := newValue; }
    }

    method GetBit(n: nat) returns (b: bool)
      requires Valid() && n < 8 * size
      ensures b == Contents()[n]
    {
      b := Get(map_[n / BITSIZE], Pos(n));
    }

    method SetBit(n: nat)
      requires Valid() && n < 8 * size
      modifies map_
      ensures Contents() == old(Contents())[n := true]
    {
      var offset, pos := n / BITSIZE, Pos(n);
      var oldValue := map_[offset];
      var retry := true;
      BitsWithBit(map_[..], n, true);
      while retry
        invariant retry ==> map_[..] == old(map_[..]) && oldValue == map_[offset]
        invariant !retry ==> map_[..] == WithBit(old(map_[..]), n, true)
        decreases if retry then 1 else 0
      {
        var newValue := Set(oldValue, pos);
        var result := CompareStore(offset, oldValue, newValue);
        retry := result != oldValue;
        oldValue := result;
      }
    }

    method ResetBit(n: nat)
      requires Valid() && n < 8 * size
      modifies map_
      ensures Contents() == old(Contents())[n := false]
    {
      var offset, pos := n / BITSIZE, Pos(n);
      var oldValue := map_[offset];
      var retry := true;
      BitsWithBit(map_[..], n, false);
      while retry
        invariant retry ==> map_[..] == old(map_[..]) && oldValue == map_[offset]
        invariant !retry ==> map_[..] == WithBit(old(map_[..]), n, false)
        decreases if retry then 1 else 0
      {
        var newValue := Reset(oldValue, pos);
        var result := CompareStore(offset, oldValue, newValue);
        retry := result != oldValue;
        oldValue := result;
      }
    }

    /** Flips bit n if it is val. */
    method Reserve(val: bool, n: nat) returns (r: int)
      requires Valid() && n < 8 * size
      modifies map_
      ensures r == (if old(Contents())[n] == val then 0 else -1)
      ensures Contents() == if r == 0 then old(Contents())[n := !val] else old(Contents())
    {
      var offset, pos := n / BITSIZE, Pos(n);
      var oldValue := map_[offset];
      var retry := true;
      BitsWithBit(map_[..], n, !val);
      while retry
        invariant retry ==> map_[..] == old(map_[..]) && oldValue == map_[offset]
        invariant !retry ==> old(Contents())[n] == val && map_[..] == WithBit(old(map_[..]), n, !val)
        decreases if retry then 1 else 0
      {
        if Get(oldValue, pos) != val { return -1; }
        var newValue := if val then Reset(oldValue, pos) else Set(oldValue, pos);
        var result := CompareStore(offset, oldValue, newValue);
        // with no other thread the store succeeds; BitmapThreads has the retries
        if result != oldValue { assert false; }
        retry := false;
      }
      r := 0;
    }

    method FindAndReserve(val: bool, start: nat) returns (r: int)
      requires Valid()
      modifies map_
      ensures IsFirst(old(Contents()), val, start, r)
      ensures Contents() == if r == NOTFOUND then old(Contents()) else old(Contents())[r := !val]
    {
      var i, bits := start, size * 8;
      while i < bits
        invariant start <= i && Contents() == old(Contents())
        invariant forall j :: start <= j < i && j < bits ==> Contents()[j] != val
      {
        var b := GetBit(i);
        if b == val {
          var ok := Reserve(val, i);
          if ok == 0 { return i; }
        }
        i := i + 1;
      }
      r := NOTFOUND;
    }

    method Find(val: bool, start: nat) returns (r: int)
      requires Valid()
      ensures IsFirst(Contents(), val, start, r)
    {
      var i, bits := start, size * 8;
      while i < bits
        invariant start <= i
        invariant forall j :: start <= j < i && j < bits ==> Contents()[j] != val
      {
        var b := GetBit(i);
        if b == val { return i; }
        i := i + 1;
      }
      r := NOTFOUND;
    }
  }
}
