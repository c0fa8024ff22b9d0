/** Products, quotients and remainders by a variable width, by repeated addition and
    subtraction. */
module Widths {
  /** n * w */
  function Product(n: nat, w: nat): nat {
    Multiple(n, w)
  }

  function Multiple(n: nat, w: nat): nat {
    if n == 0 then 0 else Multiple(n - 1, w) + w
  }

  /** size / w */
  function Quotient(size: nat, w: nat): (n: nat)
    requires w > 0
    ensures n <= size
  {
    if size < w then 0 else 1 + Quotient(size - w, w)
  }

  /** size % w */
  function Remainder(size: nat, w: nat): (r: nat)
    requires w > 0
    ensures r < w && r <= size
  {
    if size < w then size else Remainder(size - w, w)
  }

  function RoundDown(size: nat, w: nat): nat
    requires w > 0
  {
    size - Remainder(size, w)
  }

  /** The definition by repetition is the usual product. */
  lemma {:induction false} ProductIsTimes(n: nat, w: nat)
    ensures Product(n, w) == n * w
  {
    if n > 0 {
      ProductIsTimes(n - 1, w);
    }
  }

  /** Quotient and remainder, the remainder being below w. */
  lemma {:induction false} QuotientAndRemainder(size: nat, w: nat)
    requires w > 0
    ensures size == Quotient(size, w) * w + Remainder(size, w)
  {
    if size >= w {
      QuotientAndRemainder(size - w, w);
      var n := Quotient(size - w, w);
      assert (n + 1) * w == n * w + w;
    }
  }

  lemma {:induction false} QuotientOfProduct(n: nat, w: nat)
    requires w > 0
    ensures Quotient(Product(n, w), w) == n && Remainder(Product(n, w), w) == 0
  {
    if n > 0 {
      QuotientOfProduct(n - 1, w);
    }
  }

  lemma {:induction false} QuotientMonotone(a: nat, b: nat, w: nat)
    requires w > 0 && a <= b
    ensures Quotient(a, w) <= Quotient(b, w)
  {
    if a >= w {
      QuotientMonotone(a - w, b - w, w);
    }
  }

  /** Whole sizes are ordered as their element counts are. */
  lemma {:induction false} QuotientStrict(a: nat, b: nat, w: nat)
    requires w > 0 && a < b && Remainder(a, w) == 0 && Remainder(b, w) == 0
    ensures Quotient(a, w) < Quotient(b, w)
  {
    if a >= w {
      QuotientStrict(a - w, b - w, w);
    }
  }

  lemma {:induction false} WidthOne(n: nat)
    ensures Product(n, 1) == n && Quotient(n, 1) == n && Remainder(n, 1) == 0
  {
    if n > 0 {
      WidthOne(n - 1);
    }
  }
}
