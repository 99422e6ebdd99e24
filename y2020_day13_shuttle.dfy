/**
  Shuttle Search (2020, day 13), part two.  Each bus runs with a period
  (its id) and must leave at an offset (its index in the schedule) after
  the answer timestamp.  The solver folds the buses into one combined
  (period, phase) pair with the Chinese remainder construction built on
  the extended Euclidean algorithm, and answers the negated phase modulo
  the combined period.
*/
module ShuttleSearch {
  import opened Prelude
  import opened Modular
  import opened PuzzleUtils

  /** One scheduled bus: it departs every `period` minutes, `phase` minutes after the answer. */
  datatype Bus = Bus(period: int, phase: int)

  /** Outcome of combining two periodic constraints. */
  datatype Combined =
    | Aligned(period: int, phase: int)
    | CannotAlign      // the ValueError raised when the phases disagree modulo the gcd
    | DivisionByZero   // Python's ZeroDivisionError for a zero divisor

  /** Outcome of part two. */
  datatype Answer = Found(timestamp: int) | Misaligned | ZeroDivision

  /** x solves a constraint (period p, phase h) when x is congruent to h modulo p. */
  predicate Meets(x: int, p: int, h: int)
  {
    Divides(p, x - h)
  }

  /** x is congruent to the phase of every bus (so -x is a departure timestamp). */
  ghost predicate SolvesAll(x: int, buses: seq<Bus>)
  {
    forall i :: 0 <= i < |buses| ==> Meets(x, buses[i].period, buses[i].phase)
  }

  /** t is a valid answer: every bus departs `phase` minutes after t. */
  ghost predicate Departs(t: int, buses: seq<Bus>)
  {
    forall i :: 0 <= i < |buses| ==> Divides(buses[i].period, t + buses[i].phase)
  }

  predicate PositivePeriods(buses: seq<Bus>)
  {
    forall i :: 0 <= i < |buses| ==> buses[i].period > 0
  }

  /**
    combine_periods: egcd gives g = s*a + t*b; the phases must agree
    modulo g (floor divmod); the combined period is a // g * b and the
    combined phase is (phase_a - s*multiplier*a) floor-mod that period.
  */
  function CombinePeriods(pa: int, ha: int, pb: int, hb: int): (r: Combined)
    ensures r.Aligned? ==> r.period != 0 && Abs(r.phase) < Abs(r.period)
    ensures r.DivisionByZero? ==> pa == 0 || pb == 0
  {
    var e := EgcdLoop(pa, pb, 0, 1, 1, 0);
    EgcdSound(pa, pb);
    GcdZero(pa, pb);
    if e.g == 0 then DivisionByZero
    else
      var multiplier := FloorDiv(ha - hb, e.g);
      var remainder := FloorMod(ha - hb, e.g);
      if remainder != 0 then CannotAlign
      else
        var combined := FloorDiv(pa, e.g) * pb;
        if combined == 0 then
          assert pa == 0 || pb == 0 by {
            if pa != 0 {
              GcdDivides(pa, pb);
              DividesNonZero(e.g, pa);
            }
          }
          DivisionByZero
        else Aligned(combined, FloorMod(ha - e.x * multiplier * pa, combined))
  }

  /** A non-zero multiple of d has a non-zero floor quotient by d. */
  lemma DividesNonZero(d: int, x: int)
    requires d != 0 && x != 0 && Divides(d, x)
    ensures FloorDiv(x, d) != 0
  {
    var k := Quotient(d, x);
    AbsMul(d, k);
    MulAtLeast(Abs(k), Abs(d));
    assert Abs(x - d * FloorDiv(x, d)) < Abs(d);
  }

  lemma NegatedMultiple(p: int, k: int, h: int, x: int)
    requires x - h == -(k * p)
    ensures x - h == p * (-k)
  {
  }

  lemma ShiftedMultiple(pa: int, pb: int, s: int, t: int, g: int, m: int, ha: int, hb: int)
    requires pa * s + pb * t == g && ha - hb == g * m
    ensures (ha - s * m * pa) - hb == pb * (m * t)
  {
  }

  /** The phase built from the Bezout coefficients meets both constraints. */
  lemma CandidateMeetsBoth(pa: int, ha: int, pb: int, hb: int, s: int, t: int, g: int, m: int)
    requires pa * s + pb * t == g && ha - hb == g * m
    ensures Meets(ha - s * m * pa, pa, ha) && Meets(ha - s * m * pa, pb, hb)
  {
    NegatedMultiple(pa, s * m, ha, ha - s * m * pa);
    DividesOf(pa, -(s * m));
    ShiftedMultiple(pa, pb, s, t, g, m, ha, hb);
    DividesOf(pb, m * t);
  }

  /** Reducing modulo the combined period keeps the class of the candidate. */
  lemma ReducedSameClass(c: int, p: int)
    requires p > 0
    ensures Divides(p, c % p - c)
  {
    assert c % p - c == p * (-(c / p));
    DividesOf(p, -(c / p));
  }

  /** Congruence modulo q is transitive. */
  lemma MeetsThrough(x: int, y: int, z: int, q: int)
    requires Divides(q, x - y) && Divides(q, y - z)
    ensures Divides(q, x - z)
  {
    DividesLinear(q, x - y, y - z, 1, 1);
  }

  /** x agrees with the reduced phase X modulo l = lcm(a, b) when it meets both constraints. */
  lemma AlignedForward(x: int, pa: int, ha: int, pb: int, hb: int, c: int, l: int)
    requires l > 0 && Lcm(pa, pb) == Some(l)
    requires Meets(c, pa, ha) && Meets(c, pb, hb)
    requires Meets(x, pa, ha) && Meets(x, pb, hb)
    ensures Divides(l, x - c % l)
  {
    DividesLinear(pa, x - ha, c - ha, 1, -1);
    DividesLinear(pb, x - hb, c - hb, 1, -1);
    assert 1 * (x - ha) + -1 * (c - ha) == x - c;
    assert 1 * (x - hb) + -1 * (c - hb) == x - c;
    LcmLeast(pa, pb, x - c);
    ReducedSameClass(c, l);
    DividesLinear(l, x - c, c % l - c, 1, -1);
    assert 1 * (x - c) + -1 * (c % l - c) == x - c % l;
  }

  /** Conversely, agreeing with the reduced phase modulo the lcm meets both constraints. */
  lemma AlignedBackward(x: int, pa: int, ha: int, pb: int, hb: int, c: int, l: int)
    requires l > 0 && Lcm(pa, pb) == Some(l)
    requires Meets(c, pa, ha) && Meets(c, pb, hb)
    requires Divides(l, x - c % l)
    ensures Meets(x, pa, ha) && Meets(x, pb, hb)
  {
    ReducedSameClass(c, l);
    MeetsThrough(x, c % l, c, l);
    LcmCommon(pa, pb);
    DividesTrans(pa, l, x - c);
    DividesTrans(pb, l, x - c);
    MeetsThrough(x, c, ha, pa);
    MeetsThrough(x, c, hb, pb);
  }

  /** A common solution forces the phase difference to be a multiple of the gcd. */
  lemma CommonSolutionDivides(x: int, pa: int, ha: int, pb: int, hb: int)
    requires Meets(x, pa, ha) && Meets(x, pb, hb)
    ensures Divides(Gcd(pa, pb), ha - hb)
  {
    GcdDivides(pa, pb);
    DividesTrans(Gcd(pa, pb), pa, x - ha);
    DividesTrans(Gcd(pa, pb), pb, x - hb);
    DividesLinear(Gcd(pa, pb), x - hb, x - ha, 1, -1);
    assert 1 * (x - hb) + -1 * (x - ha) == ha - hb;
  }

  /** Unfolds combine_periods once the divmod and the combined period are known. */
  lemma CombineAligned(pa: int, ha: int, pb: int, hb: int, m: int, l: int)
    requires var e := EgcdLoop(pa, pb, 0, 1, 1, 0);
      e.g != 0 && FloorDiv(ha - hb, e.g) == m && FloorMod(ha - hb, e.g) == 0 &&
      FloorDiv(pa, e.g) * pb == l && l != 0
    ensures var e := EgcdLoop(pa, pb, 0, 1, 1, 0);
      CombinePeriods(pa, ha, pb, hb) == Aligned(l, FloorMod(ha - e.x * m * pa, l))
  {
  }

  /**
    For positive periods combine_periods never divides by zero; it raises
    ValueError exactly when no time meets both constraints, and otherwise
    the combined period is lcm(a, b), the phase lies in [0, lcm), and a
    time meets both constraints if and only if it meets the combined one.
  */
  lemma CombineSound(pa: int, ha: int, pb: int, hb: int)
    requires pa > 0 && pb > 0
    ensures !CombinePeriods(pa, ha, pb, hb).DivisionByZero?
    ensures CombinePeriods(pa, ha, pb, hb).CannotAlign? <==> !Divides(Gcd(pa, pb), ha - hb)
    ensures CombinePeriods(pa, ha, pb, hb).CannotAlign? ==>
      forall x :: !(Meets(x, pa, ha) && Meets(x, pb, hb))
    ensures CombinePeriods(pa, ha, pb, hb).Aligned? ==>
      var r := CombinePeriods(pa, ha, pb, hb);
      Lcm(pa, pb) == Some(r.period) && 0 <= r.phase < r.period &&
      forall x :: Meets(x, pa, ha) && Meets(x, pb, hb) <==> Meets(x, r.period, r.phase)
  {
    var e := EgcdLoop(pa, pb, 0, 1, 1, 0);
    EgcdSound(pa, pb);
    GcdZero(pa, pb);
    var g := e.g;
    assert g > 0;
    var m := (ha - hb) / g;
    FloorPositive(ha - hb, g);
    forall x | Meets(x, pa, ha) && Meets(x, pb, hb)
      ensures Divides(g, ha - hb)
    {
      CommonSolutionDivides(x, pa, ha, pb, hb);
    }
    if (ha - hb) % g == 0 {
      var l := Lcm(pa, pb).value;
      assert l == FloorDiv(pa, g) * pb && l > 0 by {
        FloorPositive(pa, g);
        LcmTimesGcd(pa, pb);
        assert l * g == pa * pb;
      }
      var c := ha - e.x * m * pa;
      assert ha - hb == g * m;
      CandidateMeetsBoth(pa, ha, pb, hb, e.x, e.y, g, m);
      CombineAligned(pa, ha, pb, hb, m, l);
      FloorPositive(c, l);
      forall x
        ensures Meets(x, pa, ha) && Meets(x, pb, hb) <==> Meets(x, l, c % l)
      {
        if Meets(x, pa, ha) && Meets(x, pb, hb) {
          AlignedForward(x, pa, ha, pb, hb, c, l);
        }
        if Meets(x, l, c % l) {
          AlignedBackward(x, pa, ha, pb, hb, c, l);
        }
      }
    }
  }

  /** The part-two fold of combine_periods over the remaining buses. */
  function FoldPeriods(period: int, phase: int, buses: seq<Bus>): (r: Combined)
    ensures r.Aligned? ==> r.period != 0
    decreases |buses|
  {
    if buses == [] then
      if period == 0 then DivisionByZero else Aligned(period, phase)
    else
      match CombinePeriods(period, phase, buses[0].period, buses[0].phase)
      case Aligned(p, h) => FoldPeriods(p, h, buses[1..])
      case other => other
  }

  /** One step of the fold: an Aligned result continues, anything else ends it. */
  lemma FoldStep(period: int, phase: int, buses: seq<Bus>)
    requires buses != []
    ensures var c := CombinePeriods(period, phase, buses[0].period, buses[0].phase);
      FoldPeriods(period, phase, buses) ==
        if c.Aligned? then FoldPeriods(c.period, c.phase, buses[1..]) else c
  {
  }

  lemma FoldEmpty(period: int, phase: int)
    requires period != 0
    ensures FoldPeriods(period, phase, []) == Aligned(period, phase)
  {
  }

  lemma Part2Ends(buses: seq<Bus>, period: int, phase: int)
    requires FoldPeriods(1, 0, buses) == Aligned(period, phase)
    ensures Part2(buses) == Found(FloorMod(-phase, period))
  {
    assert period != 0;
    assert Finish(Aligned(period, phase)) == Found(FloorMod(-phase, period));
  }

  lemma Part2Stops(buses: seq<Bus>, c: Combined)
    requires FoldPeriods(1, 0, buses) == c && !c.Aligned?
    ensures Part2(buses) == if c.CannotAlign? then Misaligned else ZeroDivision
  {
  }

  /** part2's last line: -phase floor-mod the period. */
  function Finish(folded: Combined): Answer
  {
    match folded
    case Aligned(p, h) => if p == 0 then ZeroDivision else Found(FloorMod(-h, p))
    case CannotAlign => Misaligned
    case DivisionByZero => ZeroDivision
  }

  /** part2: fold from (1, 0), then -phase floor-mod the period. */
  function Part2(buses: seq<Bus>): Answer
  {
    Finish(FoldPeriods(1, 0, buses))
  }

  /** part2 as the source writes it: a loop over the buses. */
  method Part2Loop(buses: seq<Bus>) returns (r: Answer)
    ensures r == Part2(buses)
  {
    var period, phase := 1, 0;
    var k := 0;
    while k < |buses|
      invariant 0 <= k <= |buses|
      invariant period != 0
      invariant FoldPeriods(period, phase, buses[k..]) == FoldPeriods(1, 0, buses)
    {
      var c := CombinePeriods(period, phase, buses[k].period, buses[k].phase);
      FoldStep(period, phase, buses[k..]);
      assert buses[k..][1..] == buses[k + 1..];
      if !c.Aligned? {
        r := if c.CannotAlign? then Misaligned else ZeroDivision;
        Part2Stops(buses, c);
        return;
      }
      period, phase := c.period, c.phase;
      k := k + 1;
    }
    assert buses[k..] == [];
    FoldEmpty(period, phase);
    Part2Ends(buses, period, phase);
    r := Found(FloorMod(-phase, period));
  }

  lemma SolvesAllSnoc(x: int, pre: seq<Bus>, b: Bus)
    ensures SolvesAll(x, pre + [b]) <==> SolvesAll(x, pre) && Meets(x, b.period, b.phase)
  {
    if SolvesAll(x, pre) && Meets(x, b.period, b.phase) {
      forall i | 0 <= i < |pre + [b]|
        ensures Meets(x, (pre + [b])[i].period, (pre + [b])[i].phase)
      {
        if i < |pre| {
          assert (pre + [b])[i] == pre[i];
        }
      }
    }
    if SolvesAll(x, pre + [b]) {
      assert (pre + [b])[|pre|] == b;
      forall i | 0 <= i < |pre|
        ensures Meets(x, pre[i].period, pre[i].phase)
      {
        assert (pre + [b])[i] == pre[i];
      }
    }
  }

  lemma SolvesAllPrefix(x: int, a: seq<Bus>, b: seq<Bus>)
    requires SolvesAll(x, a + b)
    ensures SolvesAll(x, a)
  {
    forall i | 0 <= i < |a|
      ensures Meets(x, a[i].period, a[i].phase)
    {
      assert (a + b)[i] == a[i];
    }
  }

  /**
    The fold keeps the invariant of part two: the accumulated (period,
    phase) describes exactly the times that meet every bus seen so far.
    It ends either Aligned with that description for all buses, or with
    ValueError when no time meets them all.
  */
  lemma {:induction false} FoldSound(period: int, phase: int, pre: seq<Bus>, rest: seq<Bus>)
    requires period > 0 && PositivePeriods(rest)
    requires forall x :: SolvesAll(x, pre) <==> Meets(x, period, phase)
    ensures var r := FoldPeriods(period, phase, rest);
      || (r.Aligned? && r.period > 0 &&
          forall x :: SolvesAll(x, pre + rest) <==> Meets(x, r.period, r.phase))
      || (r.CannotAlign? && forall x :: !SolvesAll(x, pre + rest))
    decreases |rest|
  {
    if rest == [] {
      assert pre + rest == pre;
    } else {
      var b := rest[0];
      assert pre + rest == (pre + [b]) + rest[1..];
      CombineSound(period, phase, b.period, b.phase);
      forall x
        ensures SolvesAll(x, pre + [b]) <==> Meets(x, period, phase) && Meets(x, b.period, b.phase)
      {
        SolvesAllSnoc(x, pre, b);
      }
      match CombinePeriods(period, phase, b.period, b.phase)
      case Aligned(p, h) =>
        assert PositivePeriods(rest[1..]) by {
          forall i | 0 <= i < |rest[1..]|
            ensures rest[1..][i].period > 0
          {
            assert rest[1..][i] == rest[i + 1];
          }
        }
        FoldSound(p, h, pre + [b], rest[1..]);
      case CannotAlign =>
        forall x
          ensures !SolvesAll(x, pre + rest)
        {
          if SolvesAll(x, pre + rest) {
            SolvesAllPrefix(x, pre + [b], rest[1..]);
          }
        }
      case DivisionByZero =>
    }
  }

  /** t departs with every bus exactly when -t meets every phase. */
  lemma DepartsIffSolves(t: int, buses: seq<Bus>)
    ensures Departs(t, buses) <==> SolvesAll(-t, buses)
  {
    forall i | 0 <= i < |buses|
      ensures Divides(buses[i].period, t + buses[i].phase) <==> Meets(-t, buses[i].period, buses[i].phase)
    {
      var p, h := buses[i].period, buses[i].phase;
      if Divides(p, t + h) {
        DividesLinear(p, t + h, 0, -1, 0);
        assert -1 * (t + h) + 0 * 0 == -t - h;
      }
      if Divides(p, -t - h) {
        DividesLinear(p, -t - h, 0, -1, 0);
        assert -1 * (-t - h) + 0 * 0 == t + h;
      }
    }
  }

  /** A multiple of p lying below p is not positive. */
  lemma MultipleBelow(p: int, d: int)
    requires p > 0 && Divides(p, d) && d < p
    ensures d <= 0
  {
    var k := Quotient(p, d);
    if k >= 1 {
      MulAtLeast(k, p);
    }
  }

  /** Every bus departs at (-h) mod p, and no earlier non-negative time works. */
  lemma EarliestFromFold(buses: seq<Bus>, p: int, h: int)
    requires p > 0 && forall x :: SolvesAll(x, buses) <==> Meets(x, p, h)
    ensures var t := FloorMod(-h, p);
      t >= 0 && Departs(t, buses) &&
      forall t' :: t' >= 0 && Departs(t', buses) ==> t <= t'
  {
    var t := FloorMod(-h, p);
    assert t == (-h) % p;
    assert -t - h == p * ((-h) / p);
    DividesOf(p, (-h) / p);
    DepartsIffSolves(t, buses);
    forall t' | t' >= 0 && Departs(t', buses)
      ensures t <= t'
    {
      DepartsIffSolves(t', buses);
      DividesLinear(p, -t' - h, -t - h, 1, -1);
      assert 1 * (-t' - h) + -1 * (-t - h) == t - t';
      MultipleBelow(p, t - t');
    }
  }

  /**
    For positive bus ids part two never divides by zero.  It answers the
    earliest non-negative timestamp at which every bus departs its offset
    later, and it raises ValueError only when no timestamp works.
  */
  lemma Part2Earliest(buses: seq<Bus>)
    requires PositivePeriods(buses)
    ensures !Part2(buses).ZeroDivision?
    ensures Part2(buses).Found? ==>
      var t := Part2(buses).timestamp;
      t >= 0 && Departs(t, buses) &&
      forall t' :: t' >= 0 && Departs(t', buses) ==> t <= t'
    ensures Part2(buses).Misaligned? ==> forall t :: !Departs(t, buses)
  {
    forall x
      ensures SolvesAll(x, []) <==> Meets(x, 1, 0)
    {
    }
    FoldSound(1, 0, [], buses);
    assert [] + buses == buses;
    var r := FoldPeriods(1, 0, buses);
    if r.Aligned? {
      EarliestFromFold(buses, r.period, r.phase);
    } else if r.CannotAlign? {
      forall t
        ensures !Departs(t, buses)
      {
        DepartsIffSolves(t, buses);
      }
    }
  }
}
