/** The 32-bit integers of the code. */
module Ints {
  const INT_RANGE: int := 0x1_0000_0000
  const INT_LIMIT: int := 0x8000_0000

  /** Conversion to int32_t, which keeps a count exactly when it is below 2^31. */
  function Signed(x: int): (r: int)
    ensures -INT_LIMIT <= r < INT_LIMIT
    ensures x >= 0 ==> r <= x && (r == x <==> x < INT_LIMIT)
  {
    var m := x % INT_RANGE;
    if m < INT_LIMIT then m else m - INT_RANGE
  }

  lemma {:induction false} SignedShift(x: int, k: int)
    ensures Signed(x + k * INT_RANGE) == Signed(x)
  {
    var q, m := x / INT_RANGE, x % INT_RANGE;
    assert x + k * INT_RANGE == (q + k) * INT_RANGE + m;
  }

  /** Counting up and down in an int32_t is counting modulo 2^32. */
  lemma {:induction false} SignedStep(x: int)
    ensures Signed(Signed(x) + 1) == Signed(x + 1) && Signed(Signed(x) - 1) == Signed(x - 1)
  {
    var q := if x % INT_RANGE < INT_LIMIT then x / INT_RANGE else x / INT_RANGE + 1;
    assert x == Signed(x) + q * INT_RANGE;
    hide Signed;
    SignedShift(Signed(x) + 1, q);
    SignedShift(Signed(x) - 1, q);
  }
}
