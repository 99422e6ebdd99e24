/** The helpers shared by the 2021 Python solutions: a sliding window over
    a sequence, the least common multiple, and the extended Euclidean
    algorithm. */
module PuzzleUtils {
  import opened Prelude
  import opened Modular

  // ---------------------------------------------------------------------
  // window
  // ---------------------------------------------------------------------

  /** What window yields: for n > 0 every run of n consecutive elements,
      none when the input is shorter; for n == 0 the empty tuple and then,
      because dropping the first element of the empty tuple leaves it
      empty, each element on its own. */
  function Windows<T>(s: seq<T>, n: nat): (r: seq<seq<T>>)
    ensures n > 0 ==> |r| == if |s| < n then 0 else |s| - n + 1
    ensures n > 0 ==> forall i :: 0 <= i < |r| ==> r[i] == s[i..i + n]
    ensures n == 0 ==> |r| == |s| + 1 && r[0] == []
    ensures n == 0 ==> forall i :: 0 < i < |r| ==> r[i] == [s[i - 1]]
  {
    if n == 0 then [[]] + seq(|s|, i requires 0 <= i < |s| => [s[i]])
    else if |s| < n then []
    else seq(|s| - n + 1, i requires 0 <= i < |s| - n + 1 => s[i..i + n])
  }

  /** Each window is the one before it shifted left by one element. */
  lemma WindowsShift<T>(s: seq<T>, n: nat, i: nat)
    requires n > 0 && i + 1 < |Windows(s, n)|
    ensures Windows(s, n)[i + 1] == Windows(s, n)[i][1..] + [s[i + n]]
  {
    var w := Windows(s, n);
    assert w[i + 1] == s[i + 1..i + 1 + n];
    assert w[i][1..] == s[i + 1..i + n];
  }

  /** Extending the input by one element adds the window that ends with it. */
  lemma WindowsSnoc<T>(s: seq<T>, n: nat, k: nat)
    requires 0 < n <= k < |s|
    ensures Windows(s[..k + 1], n) == Windows(s[..k], n) + [s[k + 1 - n..k + 1]]
  {
    var before := Windows(s[..k], n);
    var after := Windows(s[..k + 1], n);
    assert |before| == k - n + 1;
    assert |after| == |before| + 1;
    forall i | 0 <= i < |before|
      ensures after[i] == before[i]
    {
      assert i + n <= k;
      assert after[i] == s[..k + 1][i..i + n];
      assert s[..k + 1][i..i + n] == s[i..i + n];
      assert before[i] == s[..k][i..i + n];
      assert s[..k][i..i + n] == s[i..i + n];
    }
    assert after[|before|] == s[..k + 1][k + 1 - n..k + 1];
    assert s[..k + 1][k + 1 - n..k + 1] == s[k + 1 - n..k + 1];
  }

  lemma WindowsSnocZero<T>(s: seq<T>, k: nat)
    requires k < |s|
    ensures Windows(s[..k + 1], 0) == Windows(s[..k], 0) + [[s[k]]]
  {
    var before := Windows(s[..k], 0);
    var after := Windows(s[..k + 1], 0);
    forall i | 0 < i < |before|
      ensures after[i] == before[i]
    {
      assert after[i] == [s[..k + 1][i - 1]] == [s[i - 1]];
    }
  }

  /** window: the generator takes the first n elements, yields them when
      there are n, and then yields the tuple shifted by each further
      element; islice refuses a negative n. */
  method Window<T>(s: seq<T>, n: int) returns (r: Option<seq<seq<T>>>)
    ensures n < 0 <==> r == None
    ensures n >= 0 ==> r == Some(Windows(s, n))
  {
    if n < 0 {
      return None;
    }
    var k := if n <= |s| then n else |s|;
    var result := s[..k];
    var windows: seq<seq<T>> := [];
    if |result| == n {
      windows := [result];
    }
    if 0 < n <= |s| {
      assert Windows(s[..k], n) == [s[..k]] by {
        assert s[..k][0..n] == s[..k];
      }
    }
    while k < |s|
      invariant (if n <= |s| then n else |s|) <= k <= |s|
      invariant n > |s| ==> windows == [] && k == |s|
      invariant 0 < n <= |s| ==> result == s[k - n..k] && windows == Windows(s[..k], n)
      invariant n == 0 ==> result == (if k == 0 then [] else [s[k - 1]]) && windows == Windows(s[..k], 0)
      decreases |s| - k
    {
      var elem := s[k];
      result := (if result == [] then [] else result[1..]) + [elem];
      if n > 0 {
        WindowsSnoc(s, n, k);
        assert result == s[k + 1 - n..k + 1];
      } else {
        WindowsSnocZero(s, k);
      }
      windows := windows + [result];
      k := k + 1;
    }
    assert s[..k] == s;
    r := Some(windows);
  }

  // ---------------------------------------------------------------------
  // lcm and egcd
  // ---------------------------------------------------------------------

  /** lcm: |a * b| // gcd(a, b), with the ZeroDivisionError of two zeros. */
  function Lcm(a: int, b: int): (r: Option<nat>)
    ensures r.None? <==> a == 0 && b == 0
  {
    GcdZero(a, b);
    if Gcd(a, b) == 0 then None else Some(Abs(a * b) / Gcd(a, b))
  }

  /** gcd * lcm == |a * b|, and lcm is |a| // gcd times |b|. */
  lemma LcmTimesGcd(a: int, b: int)
    requires Lcm(a, b).Some?
    ensures Lcm(a, b).value * Gcd(a, b) == Abs(a * b)
    ensures Lcm(a, b).value == (Abs(a) / Gcd(a, b)) * Abs(b)
  {
    var g := Gcd(a, b);
    GcdDivides(a, b);
    DividesAbs(g, a);
    var k := Quotient(g, Abs(a));
    AbsMul(a, b);
    Rearrange(g, k, Abs(b));
    ModUnique(Abs(a * b), k * Abs(b), 0, g);
    ModUnique(Abs(a), k, 0, g);
  }

  lemma AbsMul(a: int, b: int)
    ensures Abs(a * b) == Abs(a) * Abs(b)
  {
  }

  lemma Rearrange(g: int, k: int, c: int)
    ensures (g * k) * c == (k * c) * g + 0
  {
  }

  /** lcm is a multiple of both numbers. */
  lemma LcmCommon(a: int, b: int)
    requires Lcm(a, b).Some?
    ensures Divides(a, Lcm(a, b).value) && Divides(b, Lcm(a, b).value)
  {
    var g := Gcd(a, b);
    var l := Lcm(a, b).value;
    LcmTimesGcd(a, b);
    GcdDivides(a, b);
    DividesAbs(g, a);
    DividesAbs(g, b);
    var ka := Quotient(g, Abs(a));
    var kb := Quotient(g, Abs(b));
    ModUnique(Abs(a), ka, 0, g);
    assert l == ka * Abs(b);
    DividesOf(Abs(b), ka);
    assert Abs(b) * ka == l;
    AbsMul(a, b);
    Rearrange(g, kb, Abs(a));
    assert l * g == (kb * Abs(a)) * g;
    Cancel(l, kb * Abs(a), g);
    DividesOf(Abs(a), kb);
    assert Abs(a) * kb == l;
  }

  lemma Cancel(x: int, y: int, g: int)
    requires g != 0 && x * g == y * g
    ensures x == y
  {
    assert (x - y) * g == 0;
  }

  /** lcm divides every common multiple, so it is the least one; the proof
      goes through egcd's coefficients. */
  lemma LcmLeast(a: int, b: int, m: int)
    requires Lcm(a, b).Some? && Divides(a, m) && Divides(b, m)
    ensures Divides(Lcm(a, b).value, m)
  {
    var l := Lcm(a, b).value;
    var g := Gcd(a, b);
    var e := EgcdLoop(a, b, 0, 1, 1, 0);
    EgcdSound(a, b);
    LcmTimesGcd(a, b);
    var s := Quotient(a, m);
    var t := Quotient(b, m);
    var c := e.x * t + e.y * s;
    assert m * e.g == (a * b) * c by {
      BezoutMultiple(a, b, m, e.x, e.y, s, t);
    }
    var lg := l * g;
    assert Divides(lg, a * b) by {
      DividesOf(lg, 1);
      DividesAbs(lg, a * b);
    }
    assert Divides(lg, m * e.g) by {
      DividesLinear(lg, a * b, a * b, c, 0);
      assert c * (a * b) + 0 * (a * b) == m * e.g;
    }
    assert Divides(lg, Abs(m) * g) by {
      DividesAbs(lg, m * e.g);
      AbsMul(m, e.g);
    }
    var k := Quotient(lg, Abs(m) * g);
    assert Abs(m) == l * k by {
      Swap(l, g, k);
      Cancel(Abs(m), l * k, g);
    }
    DividesOf(l, k);
    DividesAbs(l, m);
  }

  lemma Swap(l: int, g: int, k: int)
    ensures (l * g) * k == (l * k) * g
  {
  }

  lemma BezoutMultiple(a: int, b: int, m: int, x: int, y: int, s: int, t: int)
    requires m == a * s && m == b * t
    ensures m * (a * x + b * y) == (a * b) * (x * t + y * s)
  {
    assert m * (a * x) == (b * t) * (a * x);
    assert m * (b * y) == (a * s) * (b * y);
  }

  /** The result of egcd: g and the coefficients x and y. */
  datatype Bezout = Bezout(g: int, x: int, y: int)

  /** egcd's loop: divmod rounds down, as Python's does. */
  function EgcdLoop(a: int, b: int, x0: int, x1: int, y0: int, y1: int): Bezout
    decreases Abs(a)
  {
    if a == 0 then Bezout(b, x0, y0)
    else
      var q := FloorDiv(b, a);
      EgcdLoop(FloorMod(b, a), a, x1, x0 - q * x1, y1, y0 - q * y1)
  }

  /** egcd: the loop from (0, 1, 1, 0). */
  method Egcd(a: int, b: int) returns (g: int, x: int, y: int)
    ensures Bezout(g, x, y) == EgcdLoop(a, b, 0, 1, 1, 0)
    ensures a * x + b * y == g && Abs(g) == Gcd(a, b)
    ensures a >= 0 && b >= 0 ==> g == Gcd(a, b)
  {
    var a', b' := a, b;
    var x0, x1, y0, y1 := 0, 1, 1, 0;
    while a' != 0
      invariant EgcdLoop(a', b', x0, x1, y0, y1) == EgcdLoop(a, b, 0, 1, 1, 0)
      decreases Abs(a')
    {
      var q := FloorDiv(b', a');
      a', b' := FloorMod(b', a'), a';
      y0, y1 := y1, y0 - q * y1;
      x0, x1 := x1, x0 - q * x1;
    }
    g, x, y := b', x0, y0;
    EgcdSound(a, b);
  }

  /** One divmod step keeps both numbers combinations of the inputs. */
  lemma BezoutStep(a0: int, b0: int, a: int, b: int, q: int, x0: int, x1: int, y0: int, y1: int)
    requires a == a0 * x1 + b0 * y1 && b == a0 * x0 + b0 * y0
    ensures b - a * q == a0 * (x0 - q * x1) + b0 * (y0 - q * y1)
  {
  }

  /** One divmod step keeps the common divisors. */
  lemma GcdStep(a: int, b: int)
    requires a != 0
    ensures Gcd(FloorMod(b, a), a) == Gcd(a, b)
  {
    var q := FloorDiv(b, a);
    var r := FloorMod(b, a);
    forall d
      ensures Divides(d, a) && Divides(d, b) <==> Divides(d, r) && Divides(d, a)
    {
      if Divides(d, a) && Divides(d, b) {
        assert Divides(d, r) by {
          DividesLinear(d, b, a, 1, -q);
          assert 1 * b + -q * a == r;
        }
      }
      if Divides(d, r) && Divides(d, a) {
        assert Divides(d, b) by {
          DividesLinear(d, r, a, 1, q);
          assert 1 * r + q * a == b;
        }
      }
    }
    GcdSameDivisors(a, b, r, a);
  }

  /** egcd's loop keeps both numbers combinations of the inputs with the
      coefficients beside them, and the Gcd of the pair. */
  lemma {:induction false} EgcdLoopSound(a0: int, b0: int, a: int, b: int, x0: int, x1: int, y0: int, y1: int)
    requires a == a0 * x1 + b0 * y1 && b == a0 * x0 + b0 * y0
    requires Gcd(a, b) == Gcd(a0, b0)
    ensures var e := EgcdLoop(a, b, x0, x1, y0, y1);
      a0 * e.x + b0 * e.y == e.g && Abs(e.g) == Gcd(a0, b0)
    ensures a >= 0 && b >= 0 ==> EgcdLoop(a, b, x0, x1, y0, y1).g >= 0
    decreases Abs(a)
  {
    if a == 0 {
      assert Gcd(a, b) == Abs(b) by {
        if b != 0 {
          assert GcdNat(0, Abs(b)) == GcdNat(Abs(b), 0);
        }
      }
    } else {
      var q := FloorDiv(b, a);
      BezoutStep(a0, b0, a, b, q, x0, x1, y0, y1);
      GcdStep(a, b);
      EgcdLoopSound(a0, b0, FloorMod(b, a), a, x1, x0 - q * x1, y1, y0 - q * y1);
    }
  }

  /** egcd returns (g, x, y) with a * x + b * y == g, and g is gcd(a, b)
      up to its sign; for two non-negative numbers it is gcd(a, b). */
  lemma EgcdSound(a: int, b: int)
    ensures var e := EgcdLoop(a, b, 0, 1, 1, 0);
      a * e.x + b * e.y == e.g && Abs(e.g) == Gcd(a, b)
    ensures a >= 0 && b >= 0 ==> EgcdLoop(a, b, 0, 1, 1, 0).g == Gcd(a, b)
  {
    EgcdLoopSound(a, b, a, b, 0, 1, 1, 0);
  }

  /** With a negative input egcd's g can be negative, unlike gcd. */
  lemma EgcdNegativeExample()
    ensures EgcdLoop(-4, 6, 0, 1, 1, 0) == Bezout(-2, 2, 1)
    ensures Gcd(-4, 6) == 2
  {
    assert FloorDiv(6, -4) == -2 && FloorMod(6, -4) == -2;
    assert EgcdLoop(-4, 6, 0, 1, 1, 0) == EgcdLoop(-2, -4, 1, 2, 0, 1);
    assert FloorDiv(-4, -2) == 2 && FloorMod(-4, -2) == 0;
    assert EgcdLoop(-2, -4, 1, 2, 0, 1) == EgcdLoop(0, -2, 2, -3, 1, -2);
    assert GcdNat(4, 6) == GcdNat(6, 4) == GcdNat(4, 2) == GcdNat(2, 0) == 2;
  }

  lemma NegateBezout(a: int, b: int, x: int, y: int, g: int)
    requires a * x + b * y == g
    ensures a * -x + b * -y == -g
  {
  }

  /** egcd with the sign of the result turned so that g is gcd(a, b); it
      is egcd itself whenever both inputs are non-negative. */
  function EgcdCorrected(a: int, b: int): (r: Bezout)
    ensures a * r.x + b * r.y == r.g && r.g == Gcd(a, b)
    ensures a >= 0 && b >= 0 ==> r == EgcdLoop(a, b, 0, 1, 1, 0)
  {
    EgcdSound(a, b);
    var e := EgcdLoop(a, b, 0, 1, 1, 0);
    NegateBezout(a, b, e.x, e.y, e.g);
    if e.g < 0 then Bezout(-e.g, -e.x, -e.y) else e
  }
}
