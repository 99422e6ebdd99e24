/** The oasis readings of 2023 day 9: a reading is extrapolated by taking
    differences until they are all zero, and adding the last elements back
    up; the previous value is the same extrapolation on the reversed
    reading. */
module MirageMaintenance {

  /** No reading differs from 0 (the negation of the any in _predict). */
  predicate AllZero(s: seq<int>)
  {
    forall i :: 0 <= i < |s| ==> s[i] == 0
  }

  /** The differences of neighbouring readings, one fewer than the
      readings. */
  function Differences(s: seq<int>): (r: seq<int>)
    ensures |r| == if s == [] then 0 else |s| - 1
  {
    if s == [] then [] else seq(|s| - 1, i requires 0 <= i < |s| - 1 => Gap(s, i))
  }

  /** A reading minus the one before it. */
  function Gap(s: seq<int>, i: nat): int
    requires i + 1 < |s|
  {
    s[i + 1] - s[i]
  }

  /** The value of _predict: 0 once all readings are zero, and otherwise
      the last reading plus the prediction for the differences. */
  function Predict(s: seq<int>): (r: int)
    ensures AllZero(s) ==> r == 0
    decreases |s|
  {
    if AllZero(s) then 0 else s[|s| - 1] + Predict(Differences(s))
  }

  function Reverse(s: seq<int>): (r: seq<int>)
    ensures |r| == |s|
    ensures forall i :: 0 <= i < |s| ==> r[i] == s[|s| - 1 - i]
  {
    seq(|s|, i requires 0 <= i < |s| => s[|s| - 1 - i])
  }

  function Negate(s: seq<int>): (r: seq<int>)
    ensures |r| == |s|
    ensures forall i :: 0 <= i < |s| ==> r[i] == -s[i]
  {
    seq(|s|, i requires 0 <= i < |s| => -s[i])
  }

  /** OasisReading::predict_previous: the prediction of the reversed
      reading. */
  function PredictPrevious(s: seq<int>): (r: int)
  {
    Predict(Reverse(s))
  }

  /** OasisReading::_predict, which builds the differences with a loop
      before it recurses on them. */
  method PredictReadings(s: seq<int>) returns (r: int)
    ensures r == Predict(s)
    decreases |s|
  {
    if AllZero(s) {
      return 0;
    }
    var next := DifferencesOf(s);
    var rest := PredictReadings(next);
    r := s[|s| - 1] + rest;
  }

  /** The loop of _predict that pushes each reading minus the one
      before it; the unwrap of the first reading cannot fail, since a
      reading that is not all zeros is not empty. */
  method DifferencesOf(s: seq<int>) returns (next: seq<int>)
    requires s != []
    ensures next == Differences(s)
  {
    next := [];
    var prev := s[0];
    for i := 1 to |s|
      invariant |next| == i - 1 && prev == s[i - 1]
      invariant forall j :: 0 <= j < i - 1 ==> next[j] == Gap(s, j)
    {
      next := next + [s[i] - prev];
      prev := s[i];
    }
  }

  /** The prediction extends the reading so that its differences are
      extended by their own prediction: one more row at the right of the
      whole difference table. */
  lemma ExtendDifferences(s: seq<int>)
    requires !AllZero(s)
    ensures Differences(s + [Predict(s)]) == Differences(s) + [Predict(Differences(s))]
  {
    var d := Differences(s);
    var p := Predict(s);
    assert p == s[|s| - 1] + Predict(d);
    var t := s + [p];
    var u := d + [Predict(d)];
    assert |Differences(t)| == |u|;
    forall i | 0 <= i < |u|
      ensures Differences(t)[i] == u[i]
    {
      assert Differences(t)[i] == Gap(t, i) == t[i + 1] - t[i];
      if i < |s| - 1 {
        assert t[i] == s[i] && t[i + 1] == s[i + 1] && u[i] == d[i] == Gap(s, i);
      } else {
        assert t[i] == s[|s| - 1] && t[i + 1] == p && u[i] == Predict(d);
      }
    }
  }

  /** A run of the same number c, n of them. */
  function Constant(c: int, n: nat): (r: seq<int>)
    ensures |r| == n
  {
    seq(n, i => c)
  }

  /** The arithmetic progression a, a + d, …, n terms. */
  function Arithmetic(a: int, d: int, n: nat): (r: seq<int>)
    ensures |r| == n
  {
    seq(n, i => a + i * d)
  }

  /** A run of one number predicts that number again. */
  lemma PredictConstant(c: int, n: nat)
    requires n >= 1
    ensures Predict(Constant(c, n)) == c
  {
    if c != 0 {
      assert Constant(c, n)[n - 1] == c;
      assert !AllZero(Constant(c, n));
      assert AllZero(Differences(Constant(c, n)));
    }
  }

  /** An arithmetic progression of at least two terms predicts its next
      term. */
  lemma PredictArithmetic(a: int, d: int, n: nat)
    requires n >= 2
    ensures Predict(Arithmetic(a, d, n)) == a + n * d
  {
    var s := Arithmetic(a, d, n);
    if AllZero(s) {
      assert s[0] == a && s[1] == a + d;
    } else {
      assert Differences(s) == Constant(d, n - 1) by {
        forall i | 0 <= i < n - 1
          ensures Differences(s)[i] == d
        {
          assert s[i + 1] - s[i] == (i + 1) * d - i * d;
        }
      }
      PredictConstant(d, n - 1);
      assert s[n - 1] == a + (n - 1) * d;
    }
  }

  lemma DifferencesNegate(s: seq<int>)
    ensures Differences(Negate(s)) == Negate(Differences(s))
  {
  }

  /** The prediction of the negated readings is the negated prediction. */
  lemma {:induction false} PredictNegate(s: seq<int>)
    ensures Predict(Negate(s)) == -Predict(s)
    decreases |s|
  {
    if !AllZero(s) {
      assert !AllZero(Negate(s)) by {
        var i :| 0 <= i < |s| && s[i] != 0;
        assert Negate(s)[i] != 0;
      }
      DifferencesNegate(s);
      PredictNegate(Differences(s));
    } else {
      assert AllZero(Negate(s));
    }
  }

  /** The differences of the reversed readings are the reversed
      differences with their sign flipped. */
  lemma DifferencesReverse(s: seq<int>)
    ensures Differences(Reverse(s)) == Negate(Reverse(Differences(s)))
  {
    var l := Differences(Reverse(s));
    var r := Negate(Reverse(Differences(s)));
    assert |l| == |r|;
    forall i | 0 <= i < |l|
      ensures l[i] == r[i]
    {
      var n := |s|;
      assert l[i] == s[n - 2 - i] - s[n - 1 - i];
      assert Reverse(Differences(s))[i] == Differences(s)[n - 2 - i];
    }
  }

  /** predict_previous extrapolates to the left: the first reading minus
      the previous value of the differences. */
  lemma PreviousRule(s: seq<int>)
    requires !AllZero(s)
    ensures PredictPrevious(s) == s[0] - PredictPrevious(Differences(s))
  {
    var r := Reverse(s);
    assert !AllZero(r) by {
      var i :| 0 <= i < |s| && s[i] != 0;
      assert r[|s| - 1 - i] != 0;
    }
    assert r[|r| - 1] == s[0];
    DifferencesReverse(s);
    PredictNegate(Reverse(Differences(s)));
  }

  lemma ReverseConstant(c: int, n: nat)
    ensures Reverse(Constant(c, n)) == Constant(c, n)
  {
  }

  /** A reading of zeros predicts 0 in both directions. */
  lemma PredictZeros(n: nat)
    ensures Predict(Constant(0, n)) == 0
    ensures PredictPrevious(Constant(0, n)) == 0
  {
    assert AllZero(Reverse(Constant(0, n)));
  }

  /** part_one and part_two: the predictions, forward and backward, of
      every reading added up. */
  function PartOne(readings: seq<seq<int>>): int
  {
    if readings == [] then 0
    else PartOne(readings[..|readings| - 1]) + Predict(readings[|readings| - 1])
  }

  function PartTwo(readings: seq<seq<int>>): int
  {
    if readings == [] then 0
    else PartTwo(readings[..|readings| - 1]) + PredictPrevious(readings[|readings| - 1])
  }

  /** The reading of test_example: the differences 3 3 5 9 15, then
      0 2 4 6, then 2 2 2, then zeros. */
  lemma PreviousExample(s: seq<int>)
    requires s == [10, 13, 16, 21, 30, 45]
    ensures PredictPrevious(s) == 5
  {
    var d1 := Differences(s);
    assert d1 == [3, 3, 5, 9, 15];
    var d2 := Differences(d1);
    assert d2 == [0, 2, 4, 6];
    var d3 := Differences(d2);
    assert d3 == Constant(2, 3);
    PredictZeros(2);
    assert Differences(d3) == Constant(0, 2);
    assert !AllZero(s) by { assert s[0] != 0; }
    assert !AllZero(d1) by { assert d1[0] != 0; }
    assert !AllZero(d2) by { assert d2[1] != 0; }
    assert !AllZero(d3) by { assert d3[0] != 0; }
    PreviousRule(s);
    PreviousRule(d1);
    PreviousRule(d2);
    PreviousRule(d3);
  }

  /** 0 3 6 9 12 15 is an arithmetic progression: 18 next, -3 before. */
  lemma FirstExample(a: seq<int>)
    requires a == [0, 3, 6, 9, 12, 15]
    ensures Predict(a) == 18
    ensures PredictPrevious(a) == -3
  {
    assert a == Arithmetic(0, 3, 6);
    PredictArithmetic(0, 3, 6);
    assert !AllZero(a) by { assert a[1] != 0; }
    PreviousRule(a);
    assert Differences(a) == Constant(3, 5);
    ReverseConstant(3, 5);
    PredictConstant(3, 5);
  }

  /** 1 3 6 10 15 21 has the differences 2 3 4 5 6: 28 next, 0 before. */
  lemma SecondExample(b: seq<int>)
    requires b == [1, 3, 6, 10, 15, 21]
    ensures Predict(b) == 28
    ensures PredictPrevious(b) == 0
  {
    var bd := Differences(b);
    assert bd == Arithmetic(2, 1, 5);
    assert !AllZero(b) by { assert b[0] != 0; }
    PredictArithmetic(2, 1, 5);
    PreviousRule(b);
    assert !AllZero(bd) by { assert bd[0] != 0; }
    PreviousRule(bd);
    assert Differences(bd) == Constant(1, 4);
    ReverseConstant(1, 4);
    PredictConstant(1, 4);
  }

  /** 10 13 16 21 30 45 has the differences 3 3 5 9 15, and those
      0 2 4 6: 68 next. */
  lemma ThirdExample(c: seq<int>)
    requires c == [10, 13, 16, 21, 30, 45]
    ensures Predict(c) == 68
  {
    var cd := Differences(c);
    assert cd == [3, 3, 5, 9, 15];
    assert Differences(cd) == Arithmetic(0, 2, 4);
    PredictArithmetic(0, 2, 4);
    assert !AllZero(c) by { assert c[0] != 0; }
    assert !AllZero(cd) by { assert cd[0] != 0; }
  }

  /** test_part_one and test_part_two on the three readings x, y, z of
      the puzzle's published example: 18 + 28 + 68 == 114 forward and
      -3 + 0 + 5 == 2 backward. */
  lemma PartsExample(x: seq<int>, y: seq<int>, z: seq<int>)
    requires x == [0, 3, 6, 9, 12, 15] && y == [1, 3, 6, 10, 15, 21] && z == [10, 13, 16, 21, 30, 45]
    ensures PartOne([x, y, z]) == 114
    ensures PartTwo([x, y, z]) == 2
  {
    FirstExample(x);
    SecondExample(y);
    ThirdExample(z);
    PreviousExample(z);
    PartsOfThree(x, y, z);
  }

  /** Three readings add up their three predictions. */
  lemma PartsOfThree(x: seq<int>, y: seq<int>, z: seq<int>)
    ensures PartOne([x, y, z]) == Predict(x) + Predict(y) + Predict(z)
    ensures PartTwo([x, y, z]) == PredictPrevious(x) + PredictPrevious(y) + PredictPrevious(z)
  {
    assert [x, y, z][..2] == [x, y] && [x, y][..1] == [x] && [x][..0] == [];
    assert PartOne([x]) == Predict(x) && PartTwo([x]) == PredictPrevious(x);
    assert PartOne([x, y]) == PartOne([x]) + Predict(y);
    assert PartTwo([x, y]) == PartTwo([x]) + PredictPrevious(y);
  }
}
