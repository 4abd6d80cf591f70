/** The usual optional-value wrapper, for results that may be absent
    (a failed system call, an unparsable argument). */
module Optional {

  datatype Option<+T> = None | Some(value: T)
}

/** The fixed-width unsigned integers of the C code, written as explicit
    reductions of Dafny's unbounded integers. `unsigned long` is taken to be
    64 bits wide (the LP64 data model of the supported platforms). */
module Word {

  const ULONG_MODULUS: nat := 0x1_0000_0000_0000_0000
  const ULONG_MAX: nat := ULONG_MODULUS - 1
  const UINT_MODULUS: nat := 0x1_0000_0000

  /** The value an `unsigned long` holds after C converts the mathematical
      value `x` into it. */
  function ULong(x: int): (r: nat)
    ensures r < ULONG_MODULUS
    ensures (x - r) % ULONG_MODULUS == 0
    ensures 0 <= x < ULONG_MODULUS ==> r == x
  {
    x % ULONG_MODULUS
  }

  /** The value an `unsigned int` holds after C converts `x` into it. */
  function UInt(x: int): (r: nat)
    ensures r < UINT_MODULUS
    ensures (x - r) % UINT_MODULUS == 0
    ensures 0 <= x < UINT_MODULUS ==> r == x
  {
    x % UINT_MODULUS
  }
}

/** Small facts about integer division that the conversions below rely on. */
module Arith {

  lemma {:induction false} FloorBelow(x: nat, y: nat, d: nat)
    requires d > 0
    requires x * d <= y
    ensures x <= y / d
  {
    var q := y / d;
    assert y == q * d + y % d;
    assert x * d < (q + 1) * d;
  }

  lemma {:induction false} MulMonotone(a: nat, b: nat, c: nat)
    requires a <= b
    ensures a * c <= b * c
  {
  }

  lemma {:induction false} DivMulBelow(n: nat, d: nat)
    requires d > 0
    ensures (n / d) * d <= n
    ensures n - (n / d) * d == n % d
  {
  }

  /** Multiplying the remainder of one division by the quotient of another
      stays below the dividend of the second: `(t mod d) * (m / d) < m`. */
  lemma {:induction false} RemainderScaled(t: nat, d: nat, m: nat)
    requires d > 0 && m > 0
    ensures (t % d) * (m / d) < m
  {
    var q := m / d;
    var a := t % d;
    assert a <= d - 1;
    MulMonotone(a, d - 1, q);
    assert (d - 1) * q == d * q - q;
    DivMulBelow(m, d);
    assert q * d <= m;
    if q == 0 {
      assert a * q == 0;
    } else {
      assert d * q - q < m;
    }
  }

  /** A product never shrinks when one factor is at least one. */
  lemma {:induction false} ProductAtLeast(a: nat, b: nat)
    requires b >= 1
    ensures a * b >= a
  {
    MulMonotone(1, b, a);
    assert 1 * a == a;
    assert b * a == a * b;
  }

  /** Dividing an exact multiple gives back the other factor. */
  lemma {:induction false} DivExact(a: nat, b: nat, d: nat)
    requires d > 0
    ensures (a * (d * b)) / d == a * b
  {
    var x := a * b;
    assert a * (d * b) == x * d by {
      assert a * (d * b) == a * (b * d) == (a * b) * d;
    }
    MulDivCancel(x, d);
  }

  lemma {:induction false} MulDivCancel(x: nat, d: nat)
    requires d > 0
    ensures (x * d) / d == x
  {
    var q := (x * d) / d;
    var r := (x * d) % d;
    assert q * d + r == x * d;
    if q < x {
      MulMonotone(q + 1, x, d);
    } else if q > x {
      MulMonotone(x + 1, q, d);
    }
  }

  lemma {:induction false} MulAddRight(a: nat, c: nat, p: nat)
    ensures (a + c) * p == a * p + c * p
  {
  }

  /** Scaling by a positive factor keeps the order both ways. */
  lemma {:induction false} ScaleOrder(a: nat, b: nat, c: nat)
    requires c > 0
    ensures a * c <= b * c <==> a <= b
  {
    if a <= b {
      MulMonotone(a, b, c);
    } else {
      MulMonotone(b + 1, a, c);
      assert (b + 1) * c == b * c + c;
    }
  }

  /** Floor division by a positive divisor keeps the order of dividends. */
  lemma {:induction false} DivMonotone(a: nat, b: nat, d: nat)
    requires d > 0 && a <= b
    ensures a / d <= b / d
  {
    DivMulBelow(a, d);
    FloorBelow(a / d, b, d);
  }

  function Pow2(n: nat): (r: nat)
    ensures r >= 1
  {
    if n == 0 then 1 else 2 * Pow2(n - 1)
  }

  /** Shifting by `n` bits is shifting by 10 bits (a kilobyte) and then by
      the remaining `n - 10`. */
  lemma {:induction false} Pow2Kilo(n: nat)
    requires n >= 10
    ensures Pow2(n) == 1024 * Pow2(n - 10)
    decreases n
  {
    if n > 10 {
      Pow2Kilo(n - 1);
    } else {
      assert Pow2(0) == 1;
      assert Pow2(5) == 32;
    }
  }

  function Max(a: nat, b: nat): (m: nat)
    ensures m >= a && m >= b
    ensures m == a || m == b
  {
    if a > b then a else b
  }
}
