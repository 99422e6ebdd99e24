/** Arithmetic modulo m shared by the puzzle modules: Dafny's % is the
    Euclidean remainder, Rem is the remainder of Rust and Python's integer
    types truncated toward zero, and the congruence lemmas let a proof
    replace an operand by any number with the same remainder. */
module Modular {
  import opened Prelude

  /** The remainder of Rust's % on integers: the magnitude is |x| mod |m|
      and the sign is the sign of the dividend. */
  function Rem(x: int, m: int): (r: int)
    requires m != 0
    ensures Abs(r) < Abs(m)
    ensures x >= 0 ==> 0 <= r
    ensures x <= 0 ==> r <= 0
  {
    if x >= 0 then x % Abs(m) else -((-x) % Abs(m))
  }

  /** Rust's / on integers: the quotient truncated toward zero. */
  function TruncDiv(x: int, m: int): (q: int)
    requires m != 0
    ensures x == m * q + Rem(x, m)
  {
    TruncDivIdentity(x, m);
    if (x >= 0) == (m > 0) then Abs(x) / Abs(m) else -(Abs(x) / Abs(m))
  }

  lemma TruncDivIdentity(x: int, m: int)
    requires m != 0
    ensures x == m * (if (x >= 0) == (m > 0) then Abs(x) / Abs(m) else -(Abs(x) / Abs(m))) + Rem(x, m)
  {
    var xa: int, ma: int := Abs(x), Abs(m);
    if x >= 0 {
      assert Rem(x, m) == xa % ma;
      SignedIdentity(xa, ma, if m > 0 then 1 else -1, 1);
    } else {
      assert Rem(x, m) == -(xa % ma);
      SignedIdentity(xa, ma, if m > 0 then 1 else -1, -1);
    }
  }

  /** |x| == |m| * q + r with signs put back. */
  lemma SignedIdentity(xa: int, ma: int, sm: int, sx: int)
    requires xa >= 0 && ma > 0 && (sm == 1 || sm == -1) && (sx == 1 || sx == -1)
    ensures sx * xa == (sm * ma) * (sm * sx * (xa / ma)) + sx * (xa % ma)
  {
    var q: int, r: int := xa / ma, xa % ma;
    assert xa == ma * q + r;
    assert sm * sm == 1;
    assert (sm * ma) * (sm * sx * q) == (sm * sm) * (sx * (ma * q));
  }

  /** Python's // on integers: the quotient rounded down. */
  function FloorDiv(x: int, m: int): (q: int)
    requires m != 0
    ensures m > 0 ==> 0 <= x - m * q < m
    ensures m < 0 ==> m < x - m * q <= 0
  {
    if m > 0 || x % m == 0 then x / m else x / m - 1
  }

  /** Python's % on integers: the remainder with the sign of the divisor. */
  function FloorMod(x: int, m: int): (r: int)
    requires m != 0
    ensures r == x - m * FloorDiv(x, m)
    ensures Abs(r) < Abs(m)
  {
    x - m * FloorDiv(x, m)
  }

  /** For a positive divisor Python's // and % agree with Euclidean division. */
  lemma FloorPositive(x: int, m: int)
    requires m > 0
    ensures FloorDiv(x, m) == x / m && FloorMod(x, m) == x % m
  {
  }

  /** x and y leave the same remainder modulo m. */
  predicate Cong(x: int, y: int, m: int)
    requires m > 0
  {
    x % m == y % m
  }

  /** The quotient and remainder of x by m are the only pair with
      x == q * m + r and 0 <= r < m. */
  lemma ModUnique(x: int, q: int, r: int, m: int)
    requires m > 0 && 0 <= r < m && x == q * m + r
    ensures x % m == r && x / m == q
  {
    var q0, r0 := x / m, x % m;
    assert (q0 - q) * m == r - r0;
    if q0 > q {
      MulAtLeast(q0 - q, m);
    } else if q0 < q {
      MulAtLeast(q - q0, m);
    }
  }

  lemma MulAtLeast(k: int, m: int)
    requires k >= 1 && m > 0
    ensures k * m >= m
  {
  }

  /** Adding a multiple of m does not change the remainder. */
  lemma ModAddMul(x: int, k: int, m: int)
    requires m > 0
    ensures (x + k * m) % m == x % m
  {
    ModUnique(x + k * m, x / m + k, x % m, m);
  }

  /** Every number is congruent to its remainder. */
  lemma CongMod(x: int, m: int)
    requires m > 0
    ensures Cong(x % m, x, m)
  {
    ModUnique(x % m, 0, x % m, m);
  }

  /** A number already in 0..m-1 is its own remainder. */
  lemma ModSmall(x: int, m: int)
    requires 0 <= x < m
    ensures x % m == x
  {
    ModUnique(x, 0, x, m);
  }

  /** Rust's remainder is congruent to its dividend whenever the divisor is
      positive. */
  lemma CongRem(x: int, m: int)
    requires m > 0
    ensures Cong(Rem(x, m), x, m)
  {
    if x < 0 {
      var q, r := (-x) / m, (-x) % m;
      assert Abs(m) == m;
      assert Rem(x, m) == -r;
      assert x == -r + (-q) * m;
      ModAddMul(-r, -q, m);
    } else {
      assert Rem(x, m) == x % m;
      CongMod(x, m);
    }
  }

  /** A non-negative dividend gives the Euclidean remainder. */
  lemma RemNonNegative(x: int, m: int)
    requires m > 0 && x >= 0
    ensures Rem(x, m) == x % m
  {
  }

  lemma CongAdd(x: int, x': int, y: int, y': int, m: int)
    requires m > 0 && Cong(x, x', m) && Cong(y, y', m)
    ensures Cong(x + y, x' + y', m)
  {
    var k := (x' / m - x / m) + (y' / m - y / m);
    assert x' - x == (x' / m - x / m) * m;
    assert y' - y == (y' / m - y / m) * m;
    assert x' + y' == (x + y) + k * m;
    ModAddMul(x + y, k, m);
  }

  lemma CongNeg(x: int, x': int, m: int)
    requires m > 0 && Cong(x, x', m)
    ensures Cong(-x, -x', m)
  {
    var k := x / m - x' / m;
    assert x - x' == k * m;
    ModAddMul(-x, k, m);
  }

  lemma CongSub(x: int, x': int, y: int, y': int, m: int)
    requires m > 0 && Cong(x, x', m) && Cong(y, y', m)
    ensures Cong(x - y, x' - y', m)
  {
    CongNeg(y, y', m);
    CongAdd(x, x', -y, -y', m);
  }

  /** Replacing the left factor by a congruent one keeps the product
      congruent. */
  lemma CongMulLeft(x: int, x': int, y: int, m: int)
    requires m > 0 && Cong(x, x', m)
    ensures Cong(x * y, x' * y, m)
  {
    var q, q' := x / m, x' / m;
    assert x' == x + (q' - q) * m;
    assert x' * y == x * y + ((q' - q) * y) * m by {
      assert x' * y == x * y + (q' - q) * m * y;
    }
    ModAddMul(x * y, (q' - q) * y, m);
  }

  lemma CongMul(x: int, x': int, y: int, y': int, m: int)
    requires m > 0 && Cong(x, x', m) && Cong(y, y', m)
    ensures Cong(x * y, x' * y', m)
  {
    CongMulLeft(x, x', y, m);
    CongMulLeft(y, y', x', m);
    assert y * x' == x' * y && y' * x' == x' * y';
  }

  lemma {:induction false} CongPow(x: int, x': int, k: nat, m: int)
    requires m > 0 && Cong(x, x', m)
    ensures Cong(Pow(x, k), Pow(x', k), m)
  {
    if k > 0 {
      CongPow(x, x', k - 1, m);
      CongMul(x, x', Pow(x, k - 1), Pow(x', k - 1), m);
    }
  }

  /** A power of a square is the power of twice the exponent. */
  lemma {:induction false} PowSquare(x: int, k: nat)
    ensures Pow(x * x, k) == Pow(x, 2 * k)
  {
    if k > 0 {
      PowSquare(x, k - 1);
      PowAdd(x, 2, 2 * (k - 1));
    }
  }

  /** The products of two numbers below |m| in magnitude stay below
      (|m| - 1)^2 in magnitude. */
  lemma ProductBound(x: int, y: int, n: nat)
    requires Abs(x) <= n && Abs(y) <= n
    ensures Abs(x * y) <= n * n
  {
    assert Abs(x * y) == Abs(x) * Abs(y);
    MulMono(Abs(x), Abs(y), n);
  }

  lemma MulMono(a: nat, b: nat, n: nat)
    requires a <= n && b <= n
    ensures a * b <= n * n
  {
    assert a * b <= a * n;
    assert a * n <= n * n;
  }

  // ---------------------------------------------------------------------
  // Divisibility and the greatest common divisor
  // ---------------------------------------------------------------------

  /** d divides x; 0 divides only 0. */
  predicate Divides(d: int, x: int)
  {
    if d == 0 then x == 0 else x % Abs(d) == 0
  }

  /** A multiple of d is divisible by d. */
  lemma DividesOf(d: int, k: int)
    ensures Divides(d, d * k)
  {
    if d != 0 {
      var k' := if d > 0 then k else -k;
      assert d * k == 0 + k' * Abs(d);
      ModAddMul(0, k', Abs(d));
    }
  }

  /** The quotient of a divisible number. */
  lemma Quotient(d: int, x: int) returns (k: int)
    requires Divides(d, x)
    ensures x == d * k
  {
    if d == 0 {
      k := 0;
    } else {
      var m := Abs(d);
      assert x == (x / m) * m + x % m;
      k := if d > 0 then x / m else -(x / m);
    }
  }

  /** A common divisor of x and y divides every combination of them. */
  lemma DividesLinear(d: int, x: int, y: int, p: int, q: int)
    requires Divides(d, x) && Divides(d, y)
    ensures Divides(d, p * x + q * y)
  {
    var kx := Quotient(d, x);
    var ky := Quotient(d, y);
    assert p * x + q * y == d * (p * kx + q * ky) by {
      Combination(d, kx, ky, p, q);
    }
    DividesOf(d, p * kx + q * ky);
  }

  lemma Combination(d: int, kx: int, ky: int, p: int, q: int)
    ensures p * (d * kx) + q * (d * ky) == d * (p * kx + q * ky)
  {
  }

  /** Rust's % leaves no remainder exactly when m divides x. */
  lemma RemZero(x: int, m: int)
    requires m != 0
    ensures Rem(x, m) == 0 <==> Divides(m, x)
  {
    if x < 0 {
      if Divides(m, x) {
        DividesLinear(m, x, 0, -1, 0);
        assert -1 * x + 0 * 0 == -x;
      }
      if Divides(m, -x) {
        DividesLinear(m, -x, 0, -1, 0);
        assert -1 * -x + 0 * 0 == x;
      }
    }
  }

  /** Divisibility is transitive. */
  lemma DividesTrans(a: int, b: int, c: int)
    requires Divides(a, b) && Divides(b, c)
    ensures Divides(a, c)
  {
    var k := Quotient(a, b);
    var j := Quotient(b, c);
    assert c == a * (k * j) by {
      assert c == (a * k) * j;
    }
    DividesOf(a, k * j);
  }

  /** Two non-negative numbers that divide each other are equal. */
  lemma DividesAntisymmetric(x: nat, y: nat)
    requires Divides(x, y) && Divides(y, x)
    ensures x == y
  {
    if x != 0 && y != 0 {
      var k := Quotient(x, y);
      var j := Quotient(y, x);
      assert x * (k * j) == x * 1;
      UnitProduct(k, j);
    }
  }

  lemma UnitProduct(k: int, j: int)
    requires k * j == 1
    ensures k == j && (k == 1 || k == -1)
  {
    if k > 1 || k < -1 {
      assert Abs(k * j) == Abs(k) * Abs(j);
      MulAtLeast(Abs(j), Abs(k));
    }
  }

  /** Euclid's algorithm on non-negative numbers. */
  function GcdNat(x: nat, y: nat): nat
    decreases y
  {
    if y == 0 then x else GcdNat(y, x % y)
  }

  /** math.gcd: the greatest common divisor of the magnitudes, 0 for two
      zeros. */
  function Gcd(a: int, b: int): nat
  {
    GcdNat(Abs(a), Abs(b))
  }

  /** Divisibility ignores the sign of the dividend. */
  lemma DividesAbs(d: int, x: int)
    ensures Divides(d, x) <==> Divides(d, Abs(x))
  {
    if Divides(d, x) {
      DividesLinear(d, x, x, if x < 0 then -1 else 1, 0);
    }
    if Divides(d, Abs(x)) {
      DividesLinear(d, Abs(x), Abs(x), if x < 0 then -1 else 1, 0);
    }
  }

  lemma {:induction false} GcdNatDivides(x: nat, y: nat)
    ensures Divides(GcdNat(x, y), x) && Divides(GcdNat(x, y), y)
    decreases y
  {
    if y == 0 {
      assert Divides(x, x) by {
        DividesOf(x, 1);
      }
      assert Divides(x, 0) by {
        DividesOf(x, 0);
      }
    } else {
      var g := GcdNat(y, x % y);
      assert GcdNat(x, y) == g;
      GcdNatDivides(y, x % y);
      assert x == (x / y) * y + 1 * (x % y);
      DividesLinear(g, y, x % y, x / y, 1);
    }
  }

  lemma {:induction false} GcdNatGreatest(x: nat, y: nat, d: int)
    requires Divides(d, x) && Divides(d, y)
    ensures Divides(d, GcdNat(x, y))
    decreases y
  {
    if y != 0 {
      DividesLinear(d, x, y, 1, -(x / y));
      assert 1 * x + -(x / y) * y == x % y;
      GcdNatGreatest(y, x % y, d);
    }
  }

  /** Gcd divides both numbers. */
  lemma GcdDivides(a: int, b: int)
    ensures Divides(Gcd(a, b), a) && Divides(Gcd(a, b), b)
  {
    GcdNatDivides(Abs(a), Abs(b));
    DividesAbs(Gcd(a, b), a);
    DividesAbs(Gcd(a, b), b);
  }

  /** Every common divisor divides Gcd, so it is the greatest one. */
  lemma GcdGreatest(a: int, b: int, d: int)
    requires Divides(d, a) && Divides(d, b)
    ensures Divides(d, Gcd(a, b))
  {
    DividesAbs(d, a);
    DividesAbs(d, b);
    GcdNatGreatest(Abs(a), Abs(b), d);
  }

  /** Gcd is 0 only for two zeros. */
  lemma GcdZero(a: int, b: int)
    ensures Gcd(a, b) == 0 <==> a == 0 && b == 0
  {
    GcdDivides(a, b);
  }

  /** Pairs with the same common divisors have the same Gcd. */
  lemma GcdSameDivisors(a: int, b: int, c: int, e: int)
    requires forall d :: Divides(d, a) && Divides(d, b) <==> Divides(d, c) && Divides(d, e)
    ensures Gcd(a, b) == Gcd(c, e)
  {
    GcdDivides(a, b);
    GcdDivides(c, e);
    GcdGreatest(c, e, Gcd(a, b));
    GcdGreatest(a, b, Gcd(c, e));
    DividesAntisymmetric(Gcd(a, b), Gcd(c, e));
  }
}
