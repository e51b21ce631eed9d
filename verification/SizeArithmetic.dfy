/** Arithmetic on machine sizes: overflow is detected before it happens, and alignments are met by least multiples. */
module SizeArithmetic {
  import opened Statuses

  /** The largest value of a 64-bit `size_t`. */
  const SIZE_MAXIMUM: int := 0xFFFF_FFFF_FFFF_FFFF

  type Size = x: int | 0 <= x <= SIZE_MAXIMUM

  const INT_MAXIMUM: int := 0x7FFF_FFFF

  type Int32 = x: int | -INT_MAXIMUM - 1 <= x <= INT_MAXIMUM

  /** The conversion of a signed 32-bit integer to a size wraps around. */
  function AsSize(x: Int32): Size {
    if x >= 0 then x else x + SIZE_MAXIMUM + 1
  }

  function CheckedAdd(left: Size, right: Size): (r: Option<Size>)
    ensures r.Some? <==> left + right <= SIZE_MAXIMUM
    ensures r.Some? ==> r.value == left + right
  {
    if left > SIZE_MAXIMUM - right then None else Some(left + right)
  }

  lemma ProductGrows(factor: nat, small: int, large: int)
    requires small <= large
    ensures factor * small <= factor * large
  {
    assert factor * large - factor * small == factor * (large - small);
  }

  lemma ProductFits(left: nat, right: nat)
    ensures left != 0 ==> (right > SIZE_MAXIMUM / left <==> left * right > SIZE_MAXIMUM)
    ensures left * right >= 0
  {
    if left != 0 {
      var quotient := SIZE_MAXIMUM / left;
      assert left * quotient <= SIZE_MAXIMUM < left * (quotient + 1);
      if right > quotient {
        ProductGrows(left, quotient + 1, right);
      } else {
        ProductGrows(left, right, quotient);
      }
    }
  }

  function CheckedMultiply(left: Size, right: Size): (r: Option<Size>)
    ensures r.Some? <==> left * right <= SIZE_MAXIMUM
    ensures r.Some? ==> r.value == left * right
  {
    ProductFits(left, right);
    if left != 0 && right > SIZE_MAXIMUM / left then None else Some(left * right)
  }

  lemma QuotientOf(value: nat, divisor: nat, quotient: nat, remainder: nat)
    requires remainder < divisor && value == divisor * quotient + remainder
    ensures value / divisor == quotient
  {
    var q := value / divisor;
    if q < quotient {
      ProductGrows(divisor, q + 1, quotient);
      assert false;
    } else if q > quotient {
      ProductGrows(divisor, quotient + 1, q);
      assert false;
    }
  }

  lemma MultipleDivides(d: nat, k: int)
    requires d > 0
    ensures (d * k) % d == 0 && (k * d) % d == 0
  {
    var n := d * k;
    var q, r := n / d, n % d;
    assert r == d * (k - q);
    if k - q >= 1 {
      ProductGrows(d, 1, k - q);
      assert false;
    } else if k - q <= -1 {
      ProductGrows(d, k - q, -1);
      assert false;
    }
  }

  lemma RoundsUp(value: nat, alignment: nat)
    requires alignment > 0
    ensures (value + (alignment - value % alignment)) % alignment == 0
  {
    var quotient := value / alignment;
    assert value + (alignment - value % alignment) == alignment * (quotient + 1);
    MultipleDivides(alignment, quotient + 1);
  }

  /** The least multiple of `alignment` that is not below `value`. */
  function AlignedUp(value: nat, alignment: nat): (r: nat)
    requires alignment > 0
    ensures value <= r < value + alignment && r % alignment == 0
  {
    RoundsUp(value, alignment);
    if value % alignment == 0 then value else value + (alignment - value % alignment)
  }

  lemma AlignedUpIsLeast(value: nat, alignment: nat, multiple: nat)
    requires alignment > 0 && multiple % alignment == 0 && multiple >= value
    ensures multiple >= AlignedUp(value, alignment)
  {
    if value % alignment != 0 {
      var quotient := value / alignment;
      if multiple / alignment <= quotient {
        ProductGrows(alignment, multiple / alignment, quotient);
        assert false;
      }
      ProductGrows(alignment, quotient + 1, multiple / alignment);
    }
  }

  function AlignUp(value: Size, alignment: Size): (r: Option<Size>)
    ensures r.Some? <==> alignment > 0 && AlignedUp(value, alignment) <= SIZE_MAXIMUM
    ensures r.Some? ==> r.value == AlignedUp(value, alignment)
  {
    if alignment == 0 then None
    else
      var remainder := value % alignment;
      if remainder == 0 then Some(value) else CheckedAdd(value, alignment - remainder)
  }

  lemma Associates(a: int, b: int, c: int)
    ensures (a * b) * c == a * (b * c)
  {
  }

  /** A multiple of a multiple of `d` is a multiple of `d`. */
  lemma DividesThrough(d: nat, m: nat, n: int)
    requires d > 0 && m > 0 && m % d == 0 && n % m == 0
    ensures n % d == 0
  {
    assert n == m * (n / m) && m == d * (m / d);
    assert n == d * ((m / d) * (n / m)) by {
      Associates(d, m / d, n / m);
    }
    MultipleDivides(d, (m / d) * (n / m));
  }

  function Gcd(a: nat, b: nat): (g: nat)
    ensures a > 0 || b > 0 ==> g > 0
    decreases b
  {
    if b == 0 then a else Gcd(b, a % b)
  }

  method GreatestCommonDivisor(left: Size, right: Size) returns (d: Size)
    ensures d == Gcd(left, right)
  {
    var a, b := left, right;
    while b != 0
      invariant Gcd(a, b) == Gcd(left, right)
    {
      var remainder := a % b;
      a := b;
      b := remainder;
    }
    return a;
  }

  lemma Substitutes(a: int, b: int, q: int, r: int, u: int, v: int)
    requires a == b * q + r
    ensures u * b + v * r == v * a + (u - v * q) * b
  {
  }

  lemma SumDivides(g: nat, b: nat, r: nat, q: nat)
    requires g > 0 && b % g == 0 && r % g == 0
    ensures (b * q + r) % g == 0
  {
    assert b == g * (b / g) && r == g * (r / g);
    assert b * q + r == g * ((b / g) * q + r / g) by {
      Associates(g, b / g, q);
    }
    MultipleDivides(g, (b / g) * q + r / g);
  }

  /** The greatest common divisor divides both numbers and is a combination of them. */
  lemma {:induction false} Bezout(a: nat, b: nat) returns (x: int, y: int)
    requires a > 0 || b > 0
    ensures a % Gcd(a, b) == 0 && b % Gcd(a, b) == 0
    ensures Gcd(a, b) == x * a + y * b
    decreases b
  {
    if b == 0 {
      x, y := 1, 0;
      MultipleDivides(a, 1);
      MultipleDivides(a, 0);
    } else {
      var u, v := Bezout(b, a % b);
      x, y := v, u - v * (a / b);
      Substitutes(a, b, a / b, a % b, u, v);
      SumDivides(Gcd(b, a % b), b, a % b, a / b);
    }
  }

  function Lcm(a: nat, b: nat): nat
    requires a > 0 && b > 0
  {
    a / Gcd(a, b) * b
  }

  lemma QuotientFits(a: nat, d: nat)
    requires d > 0
    ensures 0 <= a / d <= a
  {
    ProductGrows(a / d, 1, d);
  }

  method LeastCommonMultiple(left: Size, right: Size) returns (r: Option<Size>)
    ensures left > 0 && right > 0 ==>
              && (r.Some? <==> Lcm(left, right) <= SIZE_MAXIMUM)
              && (r.Some? ==> r.value == Lcm(left, right))
    ensures left == 0 && right == 0 ==> r.None?
    ensures (left == 0) != (right == 0) ==> r == Some(0)
  {
    var divisor := GreatestCommonDivisor(left, right);
    if divisor == 0 {
      return None;
    }
    QuotientFits(left, divisor);
    return CheckedMultiply(left / divisor, right);
  }

  lemma LcmIsMultiple(a: nat, b: nat)
    requires a > 0 && b > 0
    ensures Lcm(a, b) > 0 && Lcm(a, b) % a == 0 && Lcm(a, b) % b == 0
  {
    var _, _ := Bezout(a, b);
    var g := Gcd(a, b);
    var p, q := a / g, b / g;
    assert a == g * p && b == g * q;
    assert p > 0;
    MultipleDivides(b, p);
    assert p * b == a * q by {
      Associates(p, g, q);
    }
    MultipleDivides(a, q);
    ProductGrows(p, 1, b);
  }

  lemma CommonMultiple(a: int, b: int, x: int, y: int, m: int, n: int, k: int)
    requires k == a * m && k == b * n
    ensures (x * a + y * b) * k == (a * b) * (n * x + m * y)
  {
    assert (x * a) * k == (x * a) * (b * n) == (a * b) * (n * x);
    assert (y * b) * k == (y * b) * (a * m) == (a * b) * (m * y);
  }

  lemma LcmFactor(g: int, p: int, b: int, a: int, x: int, y: int, m: int, n: int, k: int)
    requires g == x * a + y * b && a == g * p && k == a * m && k == b * n
    ensures g * k == g * ((p * b) * (n * x + m * y))
  {
    CommonMultiple(a, b, x, y, m, n, k);
    Associates(g, p, b);
    Associates(g, p * b, n * x + m * y);
  }

  lemma Cancels(g: nat, a: int, b: int)
    requires g > 0 && g * a == g * b
    ensures a == b
  {
    if a < b {
      ProductGrows(g, a + 1, b);
      assert false;
    } else if b < a {
      ProductGrows(g, b + 1, a);
      assert false;
    }
  }

  /** Every common multiple is a multiple of the least one. */
  lemma LcmIsLeast(a: nat, b: nat, k: nat)
    requires a > 0 && b > 0 && k % a == 0 && k % b == 0
    ensures Lcm(a, b) > 0 && k % Lcm(a, b) == 0
  {
    LcmIsMultiple(a, b);
    var x, y := Bezout(a, b);
    var g := Gcd(a, b);
    var p, m, n := a / g, k / a, k / b;
    assert a == g * p && k == a * m && k == b * n;
    var c := n * x + m * y;
    assert Lcm(a, b) == p * b;
    LcmFactor(g, p, b, a, x, y, m, n, k);
    hide Gcd, Lcm;
    Cancels(g, k, Lcm(a, b) * c);
    MultipleDivides(Lcm(a, b), c);
  }
}
