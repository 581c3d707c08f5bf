/**
 The 64-bit word that holds a resource's status and reference count.

 The status lives in the upper and the count in the lower 32 bits.  The
 protocols compare and swap the whole word; `Word` is that word as a pair.
 */
module StatusWord {
  const ACTIVE := 1
  const INACTIVE := 2
  const BUSY := 3
  const RELEASED := 4

  const REFCNT_LIMIT := 0x1_0000_0000

  datatype Word = Word(status: nat, refcnt: nat)

  /** CONCAT_STATUS_REFCNT keeps only the low 32 bits of the count. */
  function Concat(status: nat, refcnt: nat): Word { Word(status, refcnt % REFCNT_LIMIT) }
}
