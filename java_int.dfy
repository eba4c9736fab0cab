/**
 * Java `int` arithmetic: every addition and multiplication wraps around
 * modulo 2^32 into the signed range [-2^31, 2^31).
 */
module JavaInt {

  const Modulus: int := 0x1_0000_0000
  const MinInt: int := -0x8000_0000
  const MaxInt: int := 0x7FFF_FFFF

  predicate InRange(x: int) { MinInt <= x <= MaxInt }

  /** The Java `int` that the mathematical integer `x` wraps to. */
  function Wrap(x: int): (r: int)
    ensures InRange(r)
    ensures (r - x) % Modulus == 0
    ensures InRange(x) ==> r == x
  {
    (x - MinInt) % Modulus + MinInt
  }

  /** Wrapping is insensitive to adding a multiple of the modulus. */
  lemma WrapShift(x: int, q: int)
    ensures Wrap(x + q * Modulus) == Wrap(x)
  {
  }

  /** Wrapping an intermediate result before adding changes nothing. */
  lemma WrapAdd(x: int, y: int)
    ensures Wrap(Wrap(x) + y) == Wrap(x + y)
  {
    var q := (Wrap(x) - x) / Modulus;
    assert Wrap(x) == x + q * Modulus;
    WrapShift(x + y, q);
    assert Wrap(x) + y == (x + y) + q * Modulus;
  }
}
