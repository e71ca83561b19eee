// Machine arithmetic of the C++ code: truncating division, casts to fixed
// widths, and the byte representation of fixed-width integers.
module Machine {

  const TWO_16: int := 0x1_0000
  const TWO_31: int := 0x8000_0000
  const TWO_32: int := 0x1_0000_0000
  const TWO_63: int := 0x8000_0000_0000_0000
  const TWO_64: int := 0x1_0000_0000_0000_0000

  newtype byte = x: int | 0 <= x < 256

  function Max(a: nat, b: nat): nat {
    if a < b then b else a
  }

  /** C's `/` on signed operands: the quotient is rounded toward zero. */
  function CDiv(a: int, b: int): int
    requires b > 0
  {
    if a >= 0 then a / b else -((-a) / b)
  }

  /** C's `%` on signed operands: the remainder takes the sign of the dividend. */
  function CMod(a: int, b: int): int
    requires b > 0
  {
    if a >= 0 then a % b else -((-a) % b)
  }

  lemma CDivModIdentity(a: int, b: int)
    requires b > 0
    ensures CDiv(a, b) * b + CMod(a, b) == a
    ensures -b < CMod(a, b) < b
    ensures a >= 0 ==> CMod(a, b) >= 0
    ensures a <= 0 ==> CMod(a, b) <= 0
  {
    if a < 0 {
      var q, r := (-a) / b, (-a) % b;
      assert q * b + r == -a;
      assert (-q) * b == -(q * b);
    }
  }

  /** A value fits in a C `int`. */
  predicate FitsInt32(x: int) {
    -TWO_31 <= x < TWO_31
  }

  /** `static_cast<int>` of a wider integer: reduction modulo 2^32 into the signed range. */
  function ToInt32(x: int): int {
    var r := x % TWO_32;
    if r < TWO_31 then r else r - TWO_32
  }

  // ------------------------------------------------------- remainders in general

  /** Quotient and remainder are determined by their defining equation. */
  lemma QuotientUnique(x: nat, size: nat, q: nat, r: nat)
    requires size > 0 && x == q * size + r && r < size
    ensures x / size == q && x % size == r
  {
    var q', r' := x / size, x % size;
    assert q' * size + r' == x;
    assert (q' - q) * size == r - r';
    if q' > q {
      AtLeast(q' - q, size);
    } else if q' < q {
      assert (q - q') * size == r' - r;
      AtLeast(q - q', size);
    }
  }

  lemma AtLeast(n: int, size: nat)
    requires n >= 1
    ensures n * size >= size
  {
    assert (n - 1) * size >= 0;
  }

  lemma SameResidue(x: nat, y: nat, size: nat)
    requires size > 0 && x % size == y % size && x < y + size && y < x + size
    ensures x == y
  {
    var p, q, r := x / size, y / size, x % size;
    assert x == p * size + r && y == q * size + r;
    assert x - y == (p - q) * size;
    if p > q {
      AtLeast(p - q, size);
    } else if p < q {
      assert y - x == (q - p) * size;
      AtLeast(q - p, size);
    }
  }

  function Quotient(x: nat, d: nat): nat
    requires d > 0
  {
    x / d
  }

  function Remainder(x: nat, d: nat): nat
    requires d > 0
  {
    x % d
  }

  lemma DivMod(x: nat, d: nat)
    requires d > 0
    ensures x == Quotient(x, d) * d + Remainder(x, d) && Remainder(x, d) < d
  {
  }

  lemma ResidueThroughMultiple(k: nat, size: nat, m: nat, n: nat, q: nat, t: nat)
    requires size > 0 && t < size
    requires k == n * (m * size) + (q * size + t)
    ensures Remainder(k, size) == t
  {
    Regroup(n, m, q, size);
    QuotientUnique(k, size, n * m + q, t);
  }

  lemma RemainderOfRemainder(k: nat, range: nat, size: nat)
    requires size > 0 && range > 0 && Remainder(range, size) == 0
    ensures Remainder(Remainder(k, range), size) == Remainder(k, size)
  {
    hide Quotient, Remainder;
    var r := Remainder(k, range);
    DivMod(range, size);
    DivMod(k, range);
    DivMod(r, size);
    ResidueThroughMultiple(k, size, Quotient(range, size), Quotient(k, range), Quotient(r, size), Remainder(r, size));
  }

  /** A counter that wraps at `range` still selects the right residue if it has not wrapped, or `size` divides `range`. */
  lemma CounterSelects(k: nat, range: nat, size: nat)
    requires size > 0 && range > 0 && (k < range || Remainder(range, size) == 0)
    ensures Remainder(Remainder(k, range), size) == Remainder(k, size)
  {
    hide Quotient, Remainder;
    if k < range {
      SmallRemainder(k, range);
    } else {
      RemainderOfRemainder(k, range, size);
    }
  }

  lemma SmallRemainder(k: nat, range: nat)
    requires k < range
    ensures Remainder(k, range) == k
  {
  }

  lemma Regroup(n: nat, m: nat, q: nat, size: nat)
    ensures n * (m * size) + q * size == (n * m + q) * size
  {
    assert n * (m * size) == (n * m) * size;
    assert (n * m) * size + q * size == (n * m + q) * size;
  }

  lemma Increment(r: nat, range: nat)
    requires range > 1
    ensures (r % range + 1) % range == (r + 1) % range
  {
    var q, t := r / range, r % range;
    assert r == q * range + t;
    if t + 1 < range {
      QuotientUnique(r + 1, range, q, t + 1);
    } else {
      assert (q + 1) * range == q * range + range;
      QuotientUnique(r + 1, range, q + 1, 0);
    }
  }
}
