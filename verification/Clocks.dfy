/** CPU clock values: `CLOCK` is a 32-bit unsigned integer and every addition or subtraction
    on it wraps. */
module Clocks {
  const MODULUS := 0x1_0000_0000

  type Clock = c: int | 0 <= c < 0x1_0000_0000

  /** All bits set: the cached deadline of an empty queue. */
  const NEVER: Clock := 0xFFFF_FFFF

  function Wrap(c: int): Clock {
    c % MODULUS
  }

  /** Every clock is its own wrapped value, and none lies behind the sentinel. */
  lemma ClockRange(c: Clock)
    ensures Wrap(c) == c <= NEVER
  {
  }

  /** Shifting two clocks by one amount keeps their wrapped difference. */
  lemma WrapDifference(a: Clock, b: Clock, shift: int)
    ensures Wrap(Wrap(a + shift) - Wrap(b + shift)) == Wrap(a - b)
  {
    var qa := (a + shift) / MODULUS;
    var qb := (b + shift) / MODULUS;
    assert Wrap(a + shift) - Wrap(b + shift) == a - b + MODULUS * (qb - qa);
    WrapMultiple(a - b, qb - qa);
  }

  lemma WrapMultiple(c: int, k: int)
    ensures Wrap(c + MODULUS * k) == Wrap(c)
  {
    assert c + MODULUS * k == MODULUS * (c / MODULUS + k) + Wrap(c);
  }

  /** Of two ordered clocks, shifting keeps the order exactly when both wrap alike. */
  lemma WrapOrder(a: Clock, b: Clock, shift: int)
    requires a <= b
    ensures Wrap(a + shift) <= Wrap(b + shift) <==> (a + shift) / MODULUS == (b + shift) / MODULUS
  {
  }

  lemma SameWrapOrder(a: Clock, b: Clock, shift: int)
    requires (a + shift) / MODULUS == (b + shift) / MODULUS
    ensures a <= b <==> Wrap(a + shift) <= Wrap(b + shift)
  {
  }
}
