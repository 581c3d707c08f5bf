/**
 The word helpers of the bitmap: one bit of a 64-bit word.
 */
module BitWord {
  predicate Get(word: bv64, bit: bv8)
    requires bit < 64
  {
    (word >> bit) & 1 == 1
  }

  function Set(word: bv64, bit: bv8): bv64
    requires bit < 64
  {
    word | (1 << bit)
  }

  function Reset(word: bv64, bit: bv8): bv64
    requires bit < 64
  {
    word & !(1 << bit)
  }

  lemma SetSame(word: bv64, a: bv8)
    requires a < 64
    ensures Get(Set(word, a), a) && !Get(Reset(word, a), a)
  {
  }

  lemma SetOther(word: bv64, a: bv8, b: bv8)
    requires a < 64 && b < 64 && a != b
    ensures Get(Set(word, a), b) == Get(word, b)
  {
  }

  lemma ResetOther(word: bv64, a: bv8, b: bv8)
    requires a < 64 && b < 64 && a != b
    ensures Get(Reset(word, a), b) == Get(word, b)
  {
  }

  lemma ZeroWord(bit: bv8)
    requires bit < 64
    ensures !Get(0, bit)
  {
  }

  lemma SmallBits(a: nat)
    requires a < 64
    ensures (a as bv8) as nat == a
  {
  }
}
