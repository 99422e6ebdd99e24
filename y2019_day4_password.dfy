/** The password rules of 2019 day 4: the decimal digits of a number,
    whether they never decrease, whether two adjacent ones are equal, and
    whether some pair of equal digits is not part of a longer run. */
module SecureContainer {
  import opened Prelude

  /** The number a digit sequence stands for, most significant first. */
  function Value(s: seq<nat>): nat
  {
    if s == [] then 0 else Value(s[..|s| - 1]) * 10 + s[|s| - 1]
  }

  predicate IsDigitSeq(s: seq<nat>)
  {
    forall i :: 0 <= i < |s| ==> s[i] < 10
  }

  /** NumberUtils::digits: the recursion pushes the higher digits first,
      then n % 10. */
  function Digits(n: nat): (r: seq<nat>)
    ensures 1 <= |r| && IsDigitSeq(r)
    ensures Value(r) == n
    ensures |r| > 1 ==> r[0] != 0
    ensures |r| == 1 <==> n < 10
    ensures |r| == 2 <==> 10 <= n < 100
  {
    if n >= 10 then
      var front := Digits(n / 10);
      assert (front + [n % 10])[..|front|] == front;
      front + [n % 10]
    else [n]
  }

  /** A digit sequence without a leading zero stands for at least 1,
      and for at least 10 once it has two digits. */
  lemma {:induction false} ValueLower(s: seq<nat>)
    requires 1 <= |s| && IsDigitSeq(s) && s[0] != 0
    ensures Value(s) >= 1
    ensures |s| >= 2 ==> Value(s) >= 10
  {
    if |s| >= 2 {
      var n := |s| - 1;
      ValueLower(s[..n]);
    } else {
      assert s[..0] == [];
    }
  }

  /** Digits reads back every digit sequence without a leading zero. */
  lemma {:induction false} DigitsValue(s: seq<nat>)
    requires 1 <= |s| && IsDigitSeq(s) && (|s| > 1 ==> s[0] != 0)
    ensures Digits(Value(s)) == s
  {
    var n := |s| - 1;
    if n == 0 {
      assert s[..0] == [];
      assert s == [s[0]];
    } else {
      ValueLower(s);
      assert s[..n][0] == s[0];
      DigitsValue(s[..n]);
      assert Value(s) / 10 == Value(s[..n]);
      assert s[..n] + [s[n]] == s;
    }
  }

  // The window predicates. A window of k digits starts at each i with
  // i + k <= |digits|.

  /** The window of two digits at i is in order. */
  predicate OrderedAt(d: seq<nat>, i: nat)
    requires i + 1 < |d|
  {
    d[i] <= d[i + 1]
  }

  /** The window of two digits at i repeats a digit. */
  predicate EqualAt(d: seq<nat>, i: nat)
    requires i + 1 < |d|
  {
    d[i] == d[i + 1]
  }

  /** The window of four digits at i has a pair in its middle that its
      outer digits do not extend. */
  predicate InnerPairAt(d: seq<nat>, i: nat)
    requires i + 3 < |d|
  {
    d[i] != d[i + 1] && d[i + 1] == d[i + 2] && d[i + 2] != d[i + 3]
  }

  /** windows(2).all(|w| w[0] <= w[1]). */
  predicate PairsOrdered(d: seq<nat>)
  {
    forall i: nat :: i + 1 < |d| ==> OrderedAt(d, i)
  }

  /** windows(2).any(|w| w[0] == w[1]). */
  predicate SomePairEqual(d: seq<nat>)
  {
    exists i: nat :: i + 1 < |d| && EqualAt(d, i)
  }

  /** windows(4).any(|w| w[0] != w[1] && w[1] == w[2] && w[2] != w[3]). */
  predicate SomeInnerPair(d: seq<nat>)
  {
    exists i: nat :: i + 3 < |d| && InnerPairAt(d, i)
  }

  /** NumberUtils::non_decreasing. */
  predicate NonDecreasing(n: nat)
  {
    PairsOrdered(Digits(n))
  }

  /** NumberUtils::repeated_digit. */
  predicate RepeatedDigit(n: nat)
  {
    SomePairEqual(Digits(n))
  }

  /** A two-digit number's digits are its tens and its units. */
  lemma TwoDigits(n: nat)
    requires 10 <= n < 100
    ensures Digits(n) == [n / 10, n % 10]
  {
    assert Digits(n / 10) == [n / 10];
  }

  /** middle || left_edge || right_edge, for at least three digits. */
  predicate GroupTest(d: seq<nat>)
    requires |d| >= 3
  {
    var l := |d|;
    SomeInnerPair(d) || (d[0] == d[1] && d[1] != d[2]) || (d[l - 1] == d[l - 2] && d[l - 2] != d[l - 3])
  }

  /** The body of repeated_digit_group on the digits. None is a panic: one
      digit has no digits[1], and two equal digits make the second test of
      left_edge read digits[2]. The && operators stop early, so two
      different digits read neither digits[2] nor digits[l - 3]. */
  function GroupOf(d: seq<nat>): (r: Option<bool>)
    ensures r.None? <==> |d| < 2 || (|d| == 2 && d[0] == d[1])
    ensures |d| == 2 && d[0] != d[1] ==> r == Some(false)
    ensures |d| >= 3 ==> r == Some(GroupTest(d))
  {
    var l := |d|;
    if l < 2 then None
    else
      var middle := SomeInnerPair(d);
      if d[0] == d[1] && l < 3 then None
      else
        var leftEdge := d[0] == d[1] && d[1] != d[2];
        if d[l - 1] == d[l - 2] && l < 3 then None
        else
          var rightEdge := d[l - 1] == d[l - 2] && d[l - 2] != d[l - 3];
          Some(middle || leftEdge || rightEdge)
  }

  /** NumberUtils::repeated_digit_group: it panics for every one-digit
      number and for 11, 22, ..., 99. */
  function RepeatedDigitGroup(n: nat): (r: Option<bool>)
    ensures r.None? <==> n < 10 || (n < 100 && n / 10 == n % 10)
  {
    if 10 <= n < 100 then TwoDigits(n); GroupOf(Digits(n)) else GroupOf(Digits(n))
  }

  /** The digits are sorted exactly when every adjacent pair is. */
  lemma {:induction false} PairsOrderedSorted(d: seq<nat>)
    ensures PairsOrdered(d) <==> forall i, j :: 0 <= i < j < |d| ==> d[i] <= d[j]
  {
    if PairsOrdered(d) {
      forall i, j | 0 <= i < j < |d|
        ensures d[i] <= d[j]
      {
        var k := i;
        while k < j
          invariant i <= k <= j && d[i] <= d[k]
        {
          assert OrderedAt(d, k);
          k := k + 1;
        }
      }
    }
    if forall i, j :: 0 <= i < j < |d| ==> d[i] <= d[j] {
      forall i: nat | i + 1 < |d|
        ensures OrderedAt(d, i)
      {
        assert d[i] <= d[i + 1];
      }
    }
  }

  /** A pair of equal digits that is a whole run: the digit before it, if
      any, and the digit after it, if any, are different. */
  ghost predicate ExactPairAt(d: seq<nat>, i: nat)
  {
    i + 1 < |d| && d[i] == d[i + 1] && (i == 0 || d[i - 1] != d[i]) && (i + 2 == |d| || d[i + 2] != d[i])
  }

  ghost predicate HasExactPair(d: seq<nat>)
  {
    exists i: nat :: ExactPairAt(d, i)
  }

  /** From three digits on, repeated_digit_group holds exactly when some
      run of equal digits has length exactly two. */
  lemma GroupMeansExactPair(n: nat)
    requires n >= 100
    ensures RepeatedDigitGroup(n) == Some(HasExactPair(Digits(n)))
  {
    var d := Digits(n);
    assert |d| >= 3;
    assert RepeatedDigitGroup(n) == GroupOf(d) == Some(GroupTest(d));
    GroupTestExactPair(d);
  }

  lemma GroupTestExactPair(d: seq<nat>)
    requires |d| >= 3
    ensures GroupTest(d) == HasExactPair(d)
  {
    var l := |d|;
    if GroupTest(d) {
      if SomeInnerPair(d) {
        var i: nat :| i + 3 < l && InnerPairAt(d, i);
        assert ExactPairAt(d, i + 1);
      } else if d[0] == d[1] && d[1] != d[2] {
        assert ExactPairAt(d, 0);
      } else {
        assert ExactPairAt(d, l - 2);
      }
    }
    if HasExactPair(d) {
      var i: nat :| ExactPairAt(d, i);
      if 0 < i && i + 2 < l {
        assert InnerPairAt(d, i - 1);
      }
    }
  }

  /** A run of exactly two is in particular a repeated digit, so every
      password part two accepts, part one accepts too. */
  lemma GroupImpliesRepeated(n: nat)
    requires RepeatedDigitGroup(n) == Some(true)
    ensures RepeatedDigit(n)
  {
    var d := Digits(n);
    var l := |d|;
    if SomeInnerPair(d) {
      var i: nat :| i + 3 < l && InnerPairAt(d, i);
      assert EqualAt(d, i + 1);
    } else if d[0] == d[1] && d[1] != d[2] {
      assert EqualAt(d, 0);
    } else {
      assert EqualAt(d, l - 2);
    }
  }

  // The tests of repeated_digit_group.

  lemma Digits112233()
    ensures Digits(112233) == [1, 1, 2, 2, 3, 3]
  {
    DigitsValue([1, 1, 2, 2, 3, 3]);
  }

  lemma Digits123444()
    ensures Digits(123444) == [1, 2, 3, 4, 4, 4]
  {
    DigitsValue([1, 2, 3, 4, 4, 4]);
  }

  lemma Digits111122()
    ensures Digits(111122) == [1, 1, 1, 1, 2, 2]
  {
    DigitsValue([1, 1, 1, 1, 2, 2]);
  }

  /** 112233 has its pairs of 1s, 2s and 3s. */
  lemma GroupExampleAllPairs()
    ensures RepeatedDigitGroup(112233) == Some(true)
  {
    Digits112233();
  }

  /** 123444 only has a run of three 4s. */
  lemma GroupExampleTriple()
    ensures RepeatedDigitGroup(123444) == Some(false)
  {
    Digits123444();
    var d: seq<nat> := [1, 2, 3, 4, 4, 4];
    assert RepeatedDigitGroup(123444) == Some(GroupTest(d));
    assert !SomeInnerPair(d) by {
      forall i: nat | i + 3 < |d|
        ensures !InnerPairAt(d, i)
      {
        assert i == 0 || i == 1 || i == 2;
      }
    }
  }

  /** 111122 has a run of four 1s but also the pair of 2s. */
  lemma GroupExampleQuadAndPair()
    ensures RepeatedDigitGroup(111122) == Some(true)
  {
    Digits111122();
  }

  // part1 and part2: counting the numbers of a closed range.

  /** How many numbers of lo..=hi are non-decreasing with a repeated digit. */
  function CountOne(lo: nat, hi: int): (r: nat)
    ensures r <= if hi < lo then 0 else hi - lo + 1
    decreases hi - lo
  {
    if hi < lo then 0 else CountOne(lo, hi - 1) + if NonDecreasing(hi) && RepeatedDigit(hi) then 1 else 0
  }

  /** The count of part2, or None when some non-decreasing number of the
      range makes repeated_digit_group panic. */
  function CountTwo(lo: nat, hi: int): (r: Option<nat>)
    decreases hi - lo
  {
    if hi < lo then Some(0)
    else match CountTwo(lo, hi - 1)
      case None => None
      case Some(c) =>
        if !NonDecreasing(hi) then Some(c)
        else match RepeatedDigitGroup(hi)
          case None => None
          case Some(b) => Some(c + if b then 1 else 0)
  }

  /** Part two never counts more passwords than part one. */
  lemma {:induction false} CountTwoBelowOne(lo: nat, hi: int)
    requires CountTwo(lo, hi).Some?
    ensures CountTwo(lo, hi).value <= CountOne(lo, hi)
    decreases hi - lo
  {
    if hi >= lo {
      CountTwoBelowOne(lo, hi - 1);
      if NonDecreasing(hi) && RepeatedDigitGroup(hi) == Some(true) {
        GroupImpliesRepeated(hi);
      }
    }
  }

  /** part1: the loop over number1..=number2. */
  method PartOne(number1: nat, number2: nat) returns (count: nat)
    ensures count == CountOne(number1, number2)
  {
    count := 0;
    var i := number1;
    while i <= number2
      invariant number1 <= i && (i <= number2 + 1 || i == number1)
      invariant count == CountOne(number1, i - 1)
    {
      if NonDecreasing(i) && RepeatedDigit(i) {
        count := count + 1;
      }
      i := i + 1;
    }
  }

  /** part2: the same loop with repeated_digit_group, which panics on the
      numbers RepeatedDigitGroup gives None for. */
  method PartTwo(number1: nat, number2: nat) returns (r: Option<nat>)
    ensures r == CountTwo(number1, number2)
  {
    var count := 0;
    var i := number1;
    while i <= number2
      invariant number1 <= i && (i <= number2 + 1 || i == number1)
      invariant CountTwo(number1, i - 1) == Some(count)
    {
      if NonDecreasing(i) {
        var group := RepeatedDigitGroup(i);
        if group.None? {
          CountTwoNone(number1, i, number2);
          return None;
        }
        if group.value {
          count := count + 1;
        }
      }
      i := i + 1;
    }
    return Some(count);
  }

  /** Once a number of the range panics, the whole count does. */
  lemma {:induction false} CountTwoNone(lo: nat, mid: nat, hi: int)
    requires lo <= mid <= hi && CountTwo(lo, mid).None?
    ensures CountTwo(lo, hi).None?
    decreases hi - mid
  {
    if hi > mid {
      CountTwoNone(lo, mid, hi - 1);
    }
  }
}
