/** include/cfe/atomic.h: a counter held in a C `long` and read back as a C `int`. */
module Atomic {
  const TWO_16 := 0x1_0000
  const TWO_31 := 0x8000_0000
  const TWO_32 := 0x1_0000_0000
  const TWO_63 := 0x8000_0000_0000_0000
  const TWO_64 := 0x1_0000_0000_0000_0000

  type uint16 = x: int | 0 <= x < TWO_16
  type uint32 = x: int | 0 <= x < TWO_32
  type int32 = x: int | -TWO_31 <= x < TWO_31
  type int64 = x: int | -TWO_63 <= x < TWO_63

  /** The two's complement `long` congruent to x. */
  function AsLong(x: int): (r: int64)
    ensures (r - x) % TWO_64 == 0
  {
    (x + TWO_63) % TWO_64 - TWO_63
  }

  /** The `int` that a `long` narrows to when `cfe_atomic_get` returns it. */
  function AsInt(x: int): (r: int32)
    ensures (r - x) % TWO_32 == 0
  {
    (x + TWO_31) % TWO_32 - TWO_31
  }

  /** A wrapped sum does not depend on when the wrapping happens. */
  lemma AddWraps(x: int, y: int)
    ensures AsLong(AsLong(x) + y) == AsLong(x + y)
  {
  }

  /** A wrapped counter is zero exactly when the true total is a multiple of 2^64. */
  lemma WrappedZero(total: nat)
    ensures AsLong(total) == 0 <==> total % TWO_64 == 0
  {
  }

  /** A counter that fits a `long` does not wrap. */
  lemma NoWrap(holders: nat)
    ensures 1 + holders < TWO_63 ==> AsLong(1 + holders) == 1 + holders
  {
  }

  /** A counter of 1 is right exactly for a multiple of 2^64 holders. */
  lemma CountsOne(holders: nat)
    ensures AsLong(1 + holders) == 1 <==> holders % TWO_64 == 0
  {
  }

  /** `cfe_atomic_get(&refcnt) == 1` sees the number of holders modulo 2^32 only. */
  lemma NarrowedOne(holders: nat)
    ensures AsInt(AsLong(1 + holders)) == 1 <==> holders % TWO_32 == 0
  {
    var c := AsLong(1 + holders);
    assert (c - (1 + holders)) % TWO_32 == 0;
  }

  class Counter {
    var counter: int64

    constructor (val: int32)
      ensures counter == val
    {
      counter := val;
    }

    method Set(val: int32)
      modifies this
      ensures counter == val
    {
      counter := val;
    }

    method Get() returns (val: int32)
      ensures (val - counter) % TWO_32 == 0
      ensures -TWO_31 <= counter < TWO_31 ==> val == counter
    {
      val := AsInt(counter);
    }

    method Add(count: int32)
      modifies this
      ensures counter == AsLong(old(counter) + count)
    {
      counter := AsLong(counter + count);
    }

    method Sub(count: int32)
      modifies this
      ensures counter == AsLong(old(counter) - count)
    {
      counter := AsLong(counter - count);
    }

    method SubAndTest(count: int32) returns (zero: bool)
      modifies this
      ensures counter == AsLong(old(counter) - count)
      ensures zero <==> (old(counter) - count) % TWO_64 == 0
    {
      counter := AsLong(counter - count);
      zero := counter == 0;
    }
  }
}
