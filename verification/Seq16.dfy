/** 16-bit circular sequence numbers, as the jitter buffer compares them. */
module Seq16 {

  const MODULUS: int := 0x1_0000

  /** Widest forward distance that still counts as the same segment of a stream. */
  const RANGE: int := 3000

  type u16 = x: int | 0 <= x < 0x1_0000

  /** Wrapping subtraction of two unsigned 16-bit numbers. */
  function Sub(a: u16, b: u16): (r: u16)
    ensures b + r == a || b + r == a + MODULUS
  {
    if a >= b then a - b else a - b + MODULUS
  }

  /** Wrapping increment. */
  function Next(a: u16): (r: u16)
    ensures Sub(r, a) == 1
  {
    if a == MODULUS - 1 then 0 else a + 1
  }

  /** True when the top bit of b-a is clear. Note that Before(a, a) holds. */
  predicate Before(a: u16, b: u16) {
    Sub(b, a) < 0x8000
  }

  predicate WithinRange(a: u16, b: u16) {
    Sub(a, b) < RANGE || Sub(b, a) < RANGE
  }

  /** Packets missing between prevSN and sn; wraps to 65535 when they are equal. */
  function MissingBetween(sn: u16, prevSN: u16): u16 {
    Sub(Sub(sn, prevSN), 1)
  }

  /** What may stand next to each other in the buffer: y after x is either out of range or 1..2999 ahead. */
  predicate Adjacent(x: u16, y: u16) {
    WithinRange(y, x) ==> 1 <= Sub(y, x) < RANGE
  }

  /** The 16-bit image of an unbounded (extended) sequence number. */
  function Wrap(n: int): u16 {
    n % MODULUS
  }

  /** Circular distances of numbers less than half a circle apart are their true distances. */
  lemma WrapDistance(m: int, n: int)
    requires 0 <= m - n < MODULUS
    ensures Sub(Wrap(m), Wrap(n)) == m - n
  {
  }
}
