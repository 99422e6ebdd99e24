/** Reactor reboot of 2021 day 22: steps switch boxes of cubes on or off.
    The reboot keeps a list of signed boxes whose signed volumes add up
    to the number of cubes that are on: every step adds itself when it
    switches on, and for every box already listed the overlap with the
    opposite sign, so that the overlap is counted once. */
module ReactorReboot {
  import opened Prelude

  /** A box of cubes from min to max on each axis, both ends included,
      counted with its sign. */
  datatype ToggleCube = ToggleCube(sign: int, minX: int, maxX: int, minY: int, maxY: int, minZ: int, maxZ: int)

  predicate Contains(c: ToggleCube, x: int, y: int, z: int)
  {
    c.minX <= x <= c.maxX && c.minY <= y <= c.maxY && c.minZ <= z <= c.maxZ
  }

  predicate NonEmpty(c: ToggleCube)
  {
    c.minX <= c.maxX && c.minY <= c.maxY && c.minZ <= c.maxZ
  }

  predicate Sign(c: ToggleCube)
  {
    c.sign == 1 || c.sign == -1
  }

  function Span(lo: int, hi: int): (r: int)
    ensures lo <= hi ==> r >= 1
  {
    hi - lo + 1
  }

  /** count: the sign times the number of cubes of the box. */
  function Count(c: ToggleCube): int
  {
    c.sign * Span(c.minX, c.maxX) * Span(c.minY, c.maxY) * Span(c.minZ, c.maxZ)
  }

  /** A box with cubes counts its sign once per cube: positive when it
      switches on and negative when it switches off. */
  lemma CountSign(c: ToggleCube)
    requires NonEmpty(c) && Sign(c)
    ensures c.sign == 1 ==> Count(c) >= 1
    ensures c.sign == -1 ==> Count(c) <= -1
  {
    var n := Span(c.minX, c.maxX) * Span(c.minY, c.maxY);
    assert n >= 1;
    assert n * Span(c.minZ, c.maxZ) >= 1;
    assert Count(c) == c.sign * (n * Span(c.minZ, c.maxZ));
  }

  /** clip: the part of the box inside [lo, hi] on every axis, or None
      when the box misses that region on some axis. */
  function Clip(c: ToggleCube, lo: int, hi: int): (r: Option<ToggleCube>)
    ensures r.Some? ==> r.value.sign == c.sign
    ensures r.Some? ==> forall x, y, z :: Contains(r.value, x, y, z) <==>
      Contains(c, x, y, z) && lo <= x <= hi && lo <= y <= hi && lo <= z <= hi
    ensures r.None? ==> forall x, y, z :: !(Contains(c, x, y, z) && lo <= x <= hi && lo <= y <= hi && lo <= z <= hi)
    ensures r.Some? && NonEmpty(c) && lo <= hi ==> NonEmpty(r.value)
    ensures r.Some? ==> Inside(r.value, lo, hi)
  {
    if c.maxX < lo || c.minX > hi then None
    else if c.maxY < lo || c.minY > hi then None
    else if c.maxZ < lo || c.minZ > hi then None
    else
      Some(ToggleCube(c.sign, Max(c.minX, lo), Min(c.maxX, hi), Max(c.minY, lo), Min(c.maxY, hi),
        Max(c.minZ, lo), Min(c.maxZ, hi)))
  }

  /** The sign rule of intersect: the opposite of this box's sign when
      the signs agree, and the other box's sign when they differ. */
  function IntersectSign(a: int, b: int): int
  {
    if a == b then a * -1 else b
  }

  /** intersect: the overlap of two boxes with the sign that cancels the
      first box on it, or None when they do not overlap. */
  function Intersect(c: ToggleCube, other: ToggleCube): (r: Option<ToggleCube>)
    ensures r.Some? ==> NonEmpty(r.value)
    ensures r.Some? ==> forall x, y, z :: Contains(r.value, x, y, z) <==> Contains(c, x, y, z) && Contains(other, x, y, z)
    ensures r.None? <==> forall x, y, z :: !(Contains(c, x, y, z) && Contains(other, x, y, z))
    ensures r.Some? ==> r.value.sign == IntersectSign(c.sign, other.sign)
  {
    var cube := ToggleCube(IntersectSign(c.sign, other.sign),
      Max(c.minX, other.minX), Min(c.maxX, other.maxX),
      Max(c.minY, other.minY), Min(c.maxY, other.maxY),
      Max(c.minZ, other.minZ), Min(c.maxZ, other.maxZ));
    if NonEmpty(cube) then
      assert Contains(c, cube.minX, cube.minY, cube.minZ) && Contains(other, cube.minX, cube.minY, cube.minZ);
      Some(cube)
    else None
  }

  /** With signs of 1 and -1 the overlap always has the sign opposite to
      the first box, whichever sign the second has. */
  lemma IntersectCancels(a: int, b: int)
    requires a == 1 || a == -1
    requires b == 1 || b == -1
    ensures IntersectSign(a, b) == -a
  {
  }

  /** The three doctests of intersect. */
  lemma IntersectExamples()
    ensures Intersect(ToggleCube(1, 10, 12, 10, 12, 10, 12), ToggleCube(1, 11, 13, 11, 13, 11, 13))
      == Some(ToggleCube(-1, 11, 12, 11, 12, 11, 12))
    ensures Intersect(ToggleCube(1, 10, 12, 8, 12, 10, 12), ToggleCube(-1, 9, 11, 9, 11, 9, 11))
      == Some(ToggleCube(-1, 10, 11, 9, 11, 10, 11))
    ensures Intersect(ToggleCube(-1, 10, 12, 8, 12, 10, 12), ToggleCube(-1, 9, 11, 9, 11, 9, 11))
      == Some(ToggleCube(1, 10, 11, 9, 11, 10, 11))
  {
  }

  // ---------------------------------------------------------------------
  // Reboot

  /** The overlaps of the listed boxes with the step, in list order. */
  function Overlaps(cubes: seq<ToggleCube>, step: ToggleCube): (r: seq<ToggleCube>)
    ensures |r| <= |cubes|
  {
    if cubes == [] then []
    else
      var rest := Overlaps(cubes[..|cubes| - 1], step);
      match Intersect(cubes[|cubes| - 1], step)
      case None => rest
      case Some(overlap) => rest + [overlap]
  }

  /** What one step adds: itself when it switches on, then the overlaps. */
  function ToAdd(cubes: seq<ToggleCube>, step: ToggleCube): seq<ToggleCube>
  {
    (if step.sign == 1 then [step] else []) + Overlaps(cubes, step)
  }

  /** The list of boxes after all the steps. */
  function Rebooted(steps: seq<ToggleCube>): seq<ToggleCube>
  {
    if steps == [] then []
    else
      var cubes := Rebooted(steps[..|steps| - 1]);
      cubes + ToAdd(cubes, steps[|steps| - 1])
  }

  /** reboot: the loop over the steps and, inside, over the listed boxes. */
  method Reboot(steps: seq<ToggleCube>) returns (cubes: seq<ToggleCube>)
    ensures cubes == Rebooted(steps)
  {
    cubes := [];
    for i := 0 to |steps|
      invariant cubes == Rebooted(steps[..i])
    {
      var toAdd := StepAdds(cubes, steps[i]);
      assert steps[..i + 1][..i] == steps[..i];
      cubes := cubes + toAdd;
    }
    assert steps[..|steps|] == steps;
  }

  /** The body of the reboot loop: the boxes one step adds. */
  method StepAdds(cubes: seq<ToggleCube>, step: ToggleCube) returns (toAdd: seq<ToggleCube>)
    ensures toAdd == ToAdd(cubes, step)
  {
    toAdd := [];
    if step.sign == 1 {
      toAdd := toAdd + [step];
    }
    ghost var own := toAdd;
    for j := 0 to |cubes|
      invariant toAdd == own + Overlaps(cubes[..j], step)
    {
      var intersection := Intersect(cubes[j], step);
      assert cubes[..j + 1][..j] == cubes[..j];
      if intersection.Some? {
        toAdd := toAdd + [intersection.value];
      }
    }
    assert cubes[..|cubes|] == cubes;
  }

  /** The signed number of listed boxes that hold the cube (x, y, z). */
  function Weight(cubes: seq<ToggleCube>, x: int, y: int, z: int): int
  {
    if cubes == [] then 0
    else
      var last := cubes[|cubes| - 1];
      Weight(cubes[..|cubes| - 1], x, y, z) + (if Contains(last, x, y, z) then last.sign else 0)
  }

  lemma {:induction false} WeightAppend(a: seq<ToggleCube>, b: seq<ToggleCube>, x: int, y: int, z: int)
    ensures Weight(a + b, x, y, z) == Weight(a, x, y, z) + Weight(b, x, y, z)
  {
    if b != [] {
      var n := |b| - 1;
      WeightAppend(a, b[..n], x, y, z);
      assert (a + b)[..|a + b| - 1] == a + b[..n];
    } else {
      assert a + b == a;
    }
  }

  /** Whether the cube (x, y, z) is on after the steps: the last step whose
      box holds it decides, and a cube no step touches is off. */
  predicate Lit(steps: seq<ToggleCube>, x: int, y: int, z: int)
  {
    if steps == [] then false
    else if Contains(steps[|steps| - 1], x, y, z) then steps[|steps| - 1].sign == 1
    else Lit(steps[..|steps| - 1], x, y, z)
  }

  predicate AllSigned(cubes: seq<ToggleCube>)
  {
    forall i :: 0 <= i < |cubes| ==> Sign(cubes[i])
  }

  /** The overlaps cancel the listed boxes on the step's box and weigh
      nothing outside it. */
  lemma {:induction false} OverlapsWeight(cubes: seq<ToggleCube>, step: ToggleCube, x: int, y: int, z: int)
    requires AllSigned(cubes) && Sign(step)
    ensures AllSigned(Overlaps(cubes, step))
    ensures Weight(Overlaps(cubes, step), x, y, z) == if Contains(step, x, y, z) then -Weight(cubes, x, y, z) else 0
  {
    if cubes != [] {
      var n := |cubes| - 1;
      var front := cubes[..n];
      assert AllSigned(front);
      OverlapsWeight(front, step, x, y, z);
      var rest := Overlaps(front, step);
      match Intersect(cubes[n], step)
      case None =>
        assert !(Contains(cubes[n], x, y, z) && Contains(step, x, y, z));
      case Some(overlap) =>
        IntersectCancels(cubes[n].sign, step.sign);
        assert (rest + [overlap])[..|rest|] == rest;
    }
  }

  /** After every step each cube is covered with total weight 1 when it is
      on and 0 when it is off: the signed boxes count the lit cubes once. */
  lemma {:induction false} RebootedWeight(steps: seq<ToggleCube>, x: int, y: int, z: int)
    requires AllSigned(steps)
    ensures AllSigned(Rebooted(steps))
    ensures Weight(Rebooted(steps), x, y, z) == if Lit(steps, x, y, z) then 1 else 0
  {
    if steps != [] {
      var n := |steps| - 1;
      var step := steps[n];
      assert AllSigned(steps[..n]);
      RebootedWeight(steps[..n], x, y, z);
      var cubes := Rebooted(steps[..n]);
      OverlapsWeight(cubes, step, x, y, z);
      var own: seq<ToggleCube> := if step.sign == 1 then [step] else [];
      WeightAppend(own, Overlaps(cubes, step), x, y, z);
      WeightAppend(cubes, ToAdd(cubes, step), x, y, z);
      assert Weight(own, x, y, z) == if step.sign == 1 && Contains(step, x, y, z) then 1 else 0 by {
        if step.sign == 1 {
          assert own[..0] == [];
        }
      }
      AllSignedAppend(cubes, ToAdd(cubes, step));
    }
  }

  lemma AllSignedAppend(a: seq<ToggleCube>, b: seq<ToggleCube>)
    requires AllSigned(a) && AllSigned(b)
    ensures AllSigned(a + b)
  {
    forall i | 0 <= i < |a + b|
      ensures Sign((a + b)[i])
    {
      if i >= |a| {
        assert (a + b)[i] == b[i - |a|];
      }
    }
  }

  /** The sum of count over the listed boxes. */
  function Total(cubes: seq<ToggleCube>): int
  {
    if cubes == [] then 0 else Total(cubes[..|cubes| - 1]) + Count(cubes[|cubes| - 1])
  }

  /** The steps of part one: each step clipped to -50..50, dropping the
      steps that miss that region. */
  function ClipSteps(steps: seq<ToggleCube>): (r: seq<ToggleCube>)
    ensures |r| <= |steps|
  {
    if steps == [] then []
    else
      var rest := ClipSteps(steps[..|steps| - 1]);
      match Clip(steps[|steps| - 1], -50, 50)
      case None => rest
      case Some(clipped) => rest + [clipped]
  }

  predicate InRegion(x: int, y: int, z: int)
  {
    -50 <= x <= 50 && -50 <= y <= 50 && -50 <= z <= 50
  }

  /** Clipping keeps the signs and decides every cube of the region as
      the steps do, and switches no cube outside it on. */
  lemma {:induction false} ClipStepsLit(steps: seq<ToggleCube>, x: int, y: int, z: int)
    requires AllSigned(steps)
    ensures AllSigned(ClipSteps(steps))
    ensures Lit(ClipSteps(steps), x, y, z) == (InRegion(x, y, z) && Lit(steps, x, y, z))
  {
    if steps != [] {
      var n := |steps| - 1;
      assert AllSigned(steps[..n]);
      ClipStepsLit(steps[..n], x, y, z);
      var rest := ClipSteps(steps[..n]);
      match Clip(steps[n], -50, 50)
      case None =>
      case Some(clipped) =>
        assert (rest + [clipped])[..|rest|] == rest;
        assert AllSigned(rest + [clipped]) by {
          AllSignedAppend(rest, [clipped]);
        }
    }
  }

  /** part_one: the total count of the boxes the reboot of the clipped
      steps lists. */
  method PartOne(steps: seq<ToggleCube>) returns (r: int)
    ensures r == Total(Rebooted(ClipSteps(steps)))
  {
    var cubes := Reboot(ClipSteps(steps));
    r := Total(cubes);
  }

  /** part_two: the total count after rebooting with all the steps. */
  method PartTwo(steps: seq<ToggleCube>) returns (r: int)
    ensures r == Total(Rebooted(steps))
  {
    var cubes := Reboot(steps);
    r := Total(cubes);
  }

  /** The lit cubes of part one are those the steps switch on inside the
      region: each listed box weighs on a cube as the full steps decide. */
  lemma PartOneWeight(steps: seq<ToggleCube>, x: int, y: int, z: int)
    requires AllSigned(steps)
    ensures Weight(Rebooted(ClipSteps(steps)), x, y, z) == if InRegion(x, y, z) && Lit(steps, x, y, z) then 1 else 0
  {
    ClipStepsLit(steps, x, y, z);
    RebootedWeight(ClipSteps(steps), x, y, z);
  }

  // ---------------------------------------------------------------------
  // Counting the cubes of a grid

  /** The sum of f(x, y, z) for z from lo to k. */
  function SumZ(f: (int, int, int) -> int, x: int, y: int, lo: int, k: int): int
    decreases k - lo + 1
  {
    if k < lo then 0 else SumZ(f, x, y, lo, k - 1) + f(x, y, k)
  }

  /** The sum over y from lo to k of the column sums from lo to hi. */
  function SumY(f: (int, int, int) -> int, x: int, lo: int, hi: int, k: int): int
    decreases k - lo + 1
  {
    if k < lo then 0 else SumY(f, x, lo, hi, k - 1) + SumZ(f, x, k, lo, hi)
  }

  /** The sum over x from lo to k of the plane sums from lo to hi. */
  function SumX(f: (int, int, int) -> int, lo: int, hi: int, k: int): int
    decreases k - lo + 1
  {
    if k < lo then 0 else SumX(f, lo, hi, k - 1) + SumY(f, k, lo, hi, hi)
  }

  /** The sum of f over every cube of the grid [lo, hi]^3. */
  function GridSum(f: (int, int, int) -> int, lo: int, hi: int): int
  {
    SumX(f, lo, hi, hi)
  }

  lemma {:induction false} SumZAdd(f: (int, int, int) -> int, g: (int, int, int) -> int, h: (int, int, int) -> int,
    x: int, y: int, lo: int, k: int)
    requires forall x, y, z :: h(x, y, z) == f(x, y, z) + g(x, y, z)
    ensures SumZ(h, x, y, lo, k) == SumZ(f, x, y, lo, k) + SumZ(g, x, y, lo, k)
    decreases k - lo + 1
  {
    if k >= lo {
      SumZAdd(f, g, h, x, y, lo, k - 1);
    }
  }

  lemma {:induction false} SumYAdd(f: (int, int, int) -> int, g: (int, int, int) -> int, h: (int, int, int) -> int,
    x: int, lo: int, hi: int, k: int)
    requires forall x, y, z :: h(x, y, z) == f(x, y, z) + g(x, y, z)
    ensures SumY(h, x, lo, hi, k) == SumY(f, x, lo, hi, k) + SumY(g, x, lo, hi, k)
    decreases k - lo + 1
  {
    if k >= lo {
      SumYAdd(f, g, h, x, lo, hi, k - 1);
      SumZAdd(f, g, h, x, k, lo, hi);
    }
  }

  /** Grid sums add up: the sum of f + g is the sum of f plus the sum of g. */
  lemma {:induction false} SumXAdd(f: (int, int, int) -> int, g: (int, int, int) -> int, h: (int, int, int) -> int,
    lo: int, hi: int, k: int)
    requires forall x, y, z :: h(x, y, z) == f(x, y, z) + g(x, y, z)
    ensures SumX(h, lo, hi, k) == SumX(f, lo, hi, k) + SumX(g, lo, hi, k)
    decreases k - lo + 1
  {
    if k >= lo {
      SumXAdd(f, g, h, lo, hi, k - 1);
      SumYAdd(f, g, h, k, lo, hi, hi);
    }
  }

  lemma {:induction false} SumZExt(f: (int, int, int) -> int, g: (int, int, int) -> int, x: int, y: int, lo: int, k: int)
    requires forall z :: lo <= z <= k ==> f(x, y, z) == g(x, y, z)
    ensures SumZ(f, x, y, lo, k) == SumZ(g, x, y, lo, k)
    decreases k - lo + 1
  {
    if k >= lo {
      SumZExt(f, g, x, y, lo, k - 1);
    }
  }

  lemma {:induction false} SumYExt(f: (int, int, int) -> int, g: (int, int, int) -> int, x: int, lo: int, hi: int, k: int)
    requires forall y, z :: lo <= y <= k && lo <= z <= hi ==> f(x, y, z) == g(x, y, z)
    ensures SumY(f, x, lo, hi, k) == SumY(g, x, lo, hi, k)
    decreases k - lo + 1
  {
    if k >= lo {
      SumYExt(f, g, x, lo, hi, k - 1);
      SumZExt(f, g, x, k, lo, hi);
    }
  }

  /** Grid sums of functions that agree on the grid are equal. */
  lemma {:induction false} SumXExt(f: (int, int, int) -> int, g: (int, int, int) -> int, lo: int, hi: int, k: int)
    requires forall x, y, z :: lo <= x <= k && lo <= y <= hi && lo <= z <= hi ==> f(x, y, z) == g(x, y, z)
    ensures SumX(f, lo, hi, k) == SumX(g, lo, hi, k)
    decreases k - lo + 1
  {
    if k >= lo {
      SumXExt(f, g, lo, hi, k - 1);
      SumYExt(f, g, k, lo, hi, hi);
    }
  }

  /** How many of lo..k lie in a..b, for lo <= a <= b. */
  function Between(a: int, b: int, k: int): int
  {
    if k < a then 0 else if k <= b then k - a + 1 else b - a + 1
  }

  /** A column sum of m on a..b and 0 elsewhere is m per cube of a..b. */
  lemma {:induction false} SumZBox(f: (int, int, int) -> int, x: int, y: int, m: int, a: int, b: int, lo: int, k: int)
    requires lo <= a <= b
    requires forall z :: f(x, y, z) == if a <= z <= b then m else 0
    ensures SumZ(f, x, y, lo, k) == m * Between(a, b, k)
    decreases k - lo + 1
  {
    if k >= lo {
      SumZBox(f, x, y, m, a, b, lo, k - 1);
      assert m * Between(a, b, k) == m * Between(a, b, k - 1) + (if a <= k <= b then m else 0);
    }
  }

  /** Plane sums whose columns sum to w on a..b and 0 elsewhere. */
  lemma {:induction false} SumYBox(f: (int, int, int) -> int, x: int, w: int, a: int, b: int, lo: int, hi: int, k: int)
    requires lo <= a <= b
    requires forall y :: lo <= y <= k ==> SumZ(f, x, y, lo, hi) == if a <= y <= b then w else 0
    ensures SumY(f, x, lo, hi, k) == w * Between(a, b, k)
    decreases k - lo + 1
  {
    if k >= lo {
      SumYBox(f, x, w, a, b, lo, hi, k - 1);
      assert w * Between(a, b, k) == w * Between(a, b, k - 1) + (if a <= k <= b then w else 0);
    }
  }

  /** Grid sums whose planes sum to w on a..b and 0 elsewhere. */
  lemma {:induction false} SumXBox(f: (int, int, int) -> int, w: int, a: int, b: int, lo: int, hi: int, k: int)
    requires lo <= a <= b
    requires forall x :: lo <= x <= k ==> SumY(f, x, lo, hi, hi) == if a <= x <= b then w else 0
    ensures SumX(f, lo, hi, k) == w * Between(a, b, k)
    decreases k - lo + 1
  {
    if k >= lo {
      SumXBox(f, w, a, b, lo, hi, k - 1);
      assert w * Between(a, b, k) == w * Between(a, b, k - 1) + (if a <= k <= b then w else 0);
    }
  }

  predicate Inside(c: ToggleCube, lo: int, hi: int)
  {
    lo <= c.minX && c.maxX <= hi && lo <= c.minY && c.maxY <= hi && lo <= c.minZ && c.maxZ <= hi
  }

  /** The sign of a box on each of its cubes, summed over a grid holding
      it, is its count. */
  lemma GridBox(c: ToggleCube, lo: int, hi: int)
    requires NonEmpty(c) && Inside(c, lo, hi)
    ensures GridSum((x, y, z) => if Contains(c, x, y, z) then c.sign else 0, lo, hi) == Count(c)
  {
    var f := (x, y, z) => if Contains(c, x, y, z) then c.sign else 0;
    var sx, sy, sz := Span(c.minX, c.maxX), Span(c.minY, c.maxY), Span(c.minZ, c.maxZ);
    var wz := c.sign * sz;
    var wy := wz * sy;
    forall x | lo <= x <= hi
      ensures SumY(f, x, lo, hi, hi) == if c.minX <= x <= c.maxX then wy else 0
    {
      var inX := c.minX <= x <= c.maxX;
      forall y | lo <= y <= hi
        ensures SumZ(f, x, y, lo, hi) == if c.minY <= y <= c.maxY then (if inX then wz else 0) else 0
      {
        var m := if inX && c.minY <= y <= c.maxY then c.sign else 0;
        SumZBox(f, x, y, m, c.minZ, c.maxZ, lo, hi);
        assert m * Between(c.minZ, c.maxZ, hi) == m * sz;
      }
      var w := if inX then wz else 0;
      SumYBox(f, x, w, c.minY, c.maxY, lo, hi, hi);
      assert w * Between(c.minY, c.maxY, hi) == w * sy;
    }
    SumXBox(f, wy, c.minX, c.maxX, lo, hi, hi);
    assert wy * Between(c.minX, c.maxX, hi) == wy * sx;
    assert wy * sx == c.sign * sx * sy * sz;
  }

  predicate AllInside(cubes: seq<ToggleCube>, lo: int, hi: int)
  {
    forall i :: 0 <= i < |cubes| ==> NonEmpty(cubes[i]) && Inside(cubes[i], lo, hi)
  }

  /** The total count of boxes inside a grid is the sum of their weights
      over its cubes. */
  lemma {:induction false} TotalIsGridSum(cubes: seq<ToggleCube>, lo: int, hi: int)
    requires AllInside(cubes, lo, hi)
    ensures Total(cubes) == GridSum((x, y, z) => Weight(cubes, x, y, z), lo, hi)
  {
    if cubes == [] {
      var zero := (x, y, z) => Weight(cubes, x, y, z);
      SumXAdd(zero, zero, zero, lo, hi, hi);
    } else {
      var n := |cubes| - 1;
      var c := cubes[n];
      assert AllInside(cubes[..n], lo, hi);
      TotalIsGridSum(cubes[..n], lo, hi);
      GridBox(c, lo, hi);
      SumXAdd((x, y, z) => Weight(cubes[..n], x, y, z), (x, y, z) => if Contains(c, x, y, z) then c.sign else 0,
        (x, y, z) => Weight(cubes, x, y, z), lo, hi, hi);
    }
  }

  /** Overlaps lie inside the step, so inside any grid holding it. */
  lemma {:induction false} OverlapsInside(cubes: seq<ToggleCube>, step: ToggleCube, lo: int, hi: int)
    requires Inside(step, lo, hi)
    ensures AllInside(Overlaps(cubes, step), lo, hi)
  {
    if cubes != [] {
      var n := |cubes| - 1;
      OverlapsInside(cubes[..n], step, lo, hi);
    }
  }

  /** Every box the reboot lists has cubes and lies inside a grid that
      holds all the steps. */
  lemma {:induction false} RebootedInside(steps: seq<ToggleCube>, lo: int, hi: int)
    requires AllInside(steps, lo, hi)
    ensures AllInside(Rebooted(steps), lo, hi)
  {
    if steps != [] {
      var n := |steps| - 1;
      assert AllInside(steps[..n], lo, hi);
      RebootedInside(steps[..n], lo, hi);
      var cubes := Rebooted(steps[..n]);
      OverlapsInside(cubes, steps[n], lo, hi);
      var own: seq<ToggleCube> := if steps[n].sign == 1 then [steps[n]] else [];
      InsideAppend(own, Overlaps(cubes, steps[n]), lo, hi);
      InsideAppend(cubes, ToAdd(cubes, steps[n]), lo, hi);
    }
  }

  lemma InsideAppend(a: seq<ToggleCube>, b: seq<ToggleCube>, lo: int, hi: int)
    requires AllInside(a, lo, hi) && AllInside(b, lo, hi)
    ensures AllInside(a + b, lo, hi)
  {
    forall i | 0 <= i < |a + b|
      ensures NonEmpty((a + b)[i]) && Inside((a + b)[i], lo, hi)
    {
      if i >= |a| {
        assert (a + b)[i] == b[i - |a|];
      }
    }
  }

  /** part_two counts the cubes that are on: for steps with cubes and signs
      of 1 and -1 inside a grid, the total count of what the reboot lists
      is the number of cubes of the grid left on. */
  lemma TotalCountsLit(steps: seq<ToggleCube>, lo: int, hi: int)
    requires AllSigned(steps) && AllInside(steps, lo, hi)
    ensures Total(Rebooted(steps)) == GridSum((x, y, z) => if Lit(steps, x, y, z) then 1 else 0, lo, hi)
  {
    var cubes := Rebooted(steps);
    RebootedInside(steps, lo, hi);
    TotalIsGridSum(cubes, lo, hi);
    forall x, y, z
      ensures Weight(cubes, x, y, z) == if Lit(steps, x, y, z) then 1 else 0
    {
      RebootedWeight(steps, x, y, z);
    }
    SumXExt((x, y, z) => Weight(cubes, x, y, z), (x, y, z) => if Lit(steps, x, y, z) then 1 else 0, lo, hi, hi);
  }

  predicate AllNonEmpty(cubes: seq<ToggleCube>)
  {
    forall i :: 0 <= i < |cubes| ==> NonEmpty(cubes[i])
  }

  /** Clipped steps with cubes lie inside the region. */
  lemma {:induction false} ClipStepsInside(steps: seq<ToggleCube>)
    requires AllNonEmpty(steps)
    ensures AllInside(ClipSteps(steps), -50, 50)
  {
    if steps != [] {
      var n := |steps| - 1;
      assert AllNonEmpty(steps[..n]);
      ClipStepsInside(steps[..n]);
      match Clip(steps[n], -50, 50)
      case None =>
      case Some(clipped) =>
        InsideAppend(ClipSteps(steps[..n]), [clipped], -50, 50);
    }
  }

  /** Summed over any grid, the clipped steps light what the steps light
      inside the region. */
  lemma ClippedLitSum(steps: seq<ToggleCube>, lo: int, hi: int)
    requires AllSigned(steps)
    ensures GridSum((x, y, z) => if Lit(ClipSteps(steps), x, y, z) then 1 else 0, lo, hi)
      == GridSum((x, y, z) => if InRegion(x, y, z) && Lit(steps, x, y, z) then 1 else 0, lo, hi)
  {
    forall x, y, z
      ensures Lit(ClipSteps(steps), x, y, z) == (InRegion(x, y, z) && Lit(steps, x, y, z))
    {
      ClipStepsLit(steps, x, y, z);
    }
    SumXExt((x, y, z) => if Lit(ClipSteps(steps), x, y, z) then 1 else 0,
      (x, y, z) => if InRegion(x, y, z) && Lit(steps, x, y, z) then 1 else 0, lo, hi, hi);
  }

  /** part_one counts the cubes of the region -50..50 that the steps
      leave on. */
  lemma PartOneCountsLit(steps: seq<ToggleCube>)
    requires AllSigned(steps) && AllNonEmpty(steps)
    ensures Total(Rebooted(ClipSteps(steps)))
      == GridSum((x, y, z) => if InRegion(x, y, z) && Lit(steps, x, y, z) then 1 else 0, -50, 50)
  {
    ClipStepsLit(steps, 0, 0, 0);
    ClipStepsInside(steps);
    TotalCountsLit(ClipSteps(steps), -50, 50);
    ClippedLitSum(steps, -50, 50);
  }

  lemma OverlapsSnoc(cubes: seq<ToggleCube>, c: ToggleCube, step: ToggleCube)
    ensures Overlaps(cubes + [c], step)
      == Overlaps(cubes, step) + (if Intersect(c, step).Some? then [Intersect(c, step).value] else [])
  {
    assert (cubes + [c])[..|cubes|] == cubes;
  }

  lemma TotalSnoc(cubes: seq<ToggleCube>, c: ToggleCube)
    ensures Total(cubes + [c]) == Total(cubes) + Count(c)
  {
    assert (cubes + [c])[..|cubes|] == cubes;
  }

  lemma RebootedSnoc(steps: seq<ToggleCube>, step: ToggleCube)
    ensures Rebooted(steps + [step]) == Rebooted(steps) + ToAdd(Rebooted(steps), step)
  {
    assert (steps + [step])[..|steps|] == steps;
  }

  // The steps of the small example and the boxes their reboot lists.
  const Step1 := ToggleCube(1, 10, 12, 10, 12, 10, 12)
  const Step2 := ToggleCube(1, 11, 13, 11, 13, 11, 13)
  const Step3 := ToggleCube(-1, 9, 11, 9, 11, 9, 11)
  const Step4 := ToggleCube(1, 10, 10, 10, 10, 10, 10)
  const Box3 := ToggleCube(-1, 11, 12, 11, 12, 11, 12)
  const Box4 := ToggleCube(-1, 10, 11, 10, 11, 10, 11)
  const Box5 := ToggleCube(-1, 11, 11, 11, 11, 11, 11)
  const Box6 := ToggleCube(1, 11, 11, 11, 11, 11, 11)
  const Box8 := ToggleCube(-1, 10, 10, 10, 10, 10, 10)

  lemma ExampleSecondIntersections()
    ensures Intersect(Step1, Step2) == Some(Box3)
  {
  }

  lemma ExampleThirdIntersections()
    ensures Intersect(Step1, Step3) == Some(Box4)
    ensures Intersect(Step2, Step3) == Some(Box5)
    ensures Intersect(Box3, Step3) == Some(Box6)
  {
  }

  lemma ExampleLastIntersections()
    ensures Intersect(Step1, Step4) == Some(Box8)
    ensures Intersect(Step2, Step4) == None
    ensures Intersect(Box3, Step4) == None
    ensures Intersect(Box4, Step4) == Some(Step4)
    ensures Intersect(Box5, Step4) == None
    ensures Intersect(Box6, Step4) == None
  {
  }

  lemma ExampleTwoSteps()
    ensures Rebooted([Step1, Step2]) == [Step1, Step2, Box3]
  {
    ExampleSecondIntersections();
    RebootedSnoc([], Step1);
    assert [] + [Step1] == [Step1];
    RebootedSnoc([Step1], Step2);
    assert [Step1] + [Step2] == [Step1, Step2];
    OverlapsSnoc([], Step1, Step2);
  }

  lemma ExampleThirdOverlaps()
    ensures Overlaps([Step1, Step2, Box3], Step3) == [Box4, Box5, Box6]
  {
    ExampleThirdIntersections();
    OverlapsSnoc([], Step1, Step3);
    assert [] + [Step1] == [Step1];
    OverlapsSnoc([Step1], Step2, Step3);
    assert [Step1] + [Step2] == [Step1, Step2];
    OverlapsSnoc([Step1, Step2], Box3, Step3);
    assert [Step1, Step2] + [Box3] == [Step1, Step2, Box3];
  }

  lemma ExampleThreeSteps()
    ensures Rebooted([Step1, Step2, Step3]) == [Step1, Step2, Box3, Box4, Box5, Box6]
  {
    ExampleTwoSteps();
    ExampleThirdOverlaps();
    RebootedSnoc([Step1, Step2], Step3);
    assert [Step1, Step2] + [Step3] == [Step1, Step2, Step3];
  }

  lemma ExampleLastOverlaps()
    ensures Overlaps([Step1, Step2, Box3, Box4, Box5, Box6], Step4) == [Box8, Step4]
  {
    ExampleLastIntersections();
    OverlapsSnoc([], Step1, Step4);
    assert [] + [Step1] == [Step1];
    OverlapsSnoc([Step1], Step2, Step4);
    assert [Step1] + [Step2] == [Step1, Step2];
    OverlapsSnoc([Step1, Step2], Box3, Step4);
    assert [Step1, Step2] + [Box3] == [Step1, Step2, Box3];
    OverlapsSnoc([Step1, Step2, Box3], Box4, Step4);
    assert [Step1, Step2, Box3] + [Box4] == [Step1, Step2, Box3, Box4];
    OverlapsSnoc([Step1, Step2, Box3, Box4], Box5, Step4);
    assert [Step1, Step2, Box3, Box4] + [Box5] == [Step1, Step2, Box3, Box4, Box5];
    OverlapsSnoc([Step1, Step2, Box3, Box4, Box5], Box6, Step4);
    assert [Step1, Step2, Box3, Box4, Box5] + [Box6] == [Step1, Step2, Box3, Box4, Box5, Box6];
  }

  lemma ExampleFourSteps()
    ensures Rebooted([Step1, Step2, Step3, Step4]) == [Step1, Step2, Box3, Box4, Box5, Box6, Step4, Box8, Step4]
  {
    ExampleThreeSteps();
    ExampleLastOverlaps();
    RebootedSnoc([Step1, Step2, Step3], Step4);
    assert [Step1, Step2, Step3] + [Step4] == [Step1, Step2, Step3, Step4];
  }

  lemma {:induction false} TotalAppend(a: seq<ToggleCube>, b: seq<ToggleCube>)
    ensures Total(a + b) == Total(a) + Total(b)
    decreases |b|
  {
    if b == [] {
      assert a + b == a;
    } else {
      var n := |b| - 1;
      TotalAppend(a, b[..n]);
      assert (a + b)[..|a + b| - 1] == a + b[..n];
    }
  }

  lemma ExampleCountsOn()
    ensures Total([Step1, Step2, Box3]) == 46
  {
    TotalSnoc([], Step1);
    TotalSnoc([Step1], Step2);
    TotalSnoc([Step1, Step2], Box3);
    assert [] + [Step1] == [Step1];
    assert [Step1] + [Step2] == [Step1, Step2];
    assert [Step1, Step2] + [Box3] == [Step1, Step2, Box3];
  }

  lemma ExampleCountsOff()
    ensures Total([Box4, Box5, Box6]) == -8
  {
    TotalSnoc([], Box4);
    TotalSnoc([Box4], Box5);
    TotalSnoc([Box4, Box5], Box6);
    assert [] + [Box4] == [Box4];
    assert [Box4] + [Box5] == [Box4, Box5];
    assert [Box4, Box5] + [Box6] == [Box4, Box5, Box6];
  }

  lemma ExampleCountsLast()
    ensures Total([Step4, Box8, Step4]) == 1
  {
    TotalSnoc([], Step4);
    TotalSnoc([Step4], Box8);
    TotalSnoc([Step4, Box8], Step4);
    assert [] + [Step4] == [Step4];
    assert [Step4] + [Box8] == [Step4, Box8];
    assert [Step4, Box8] + [Step4] == [Step4, Box8, Step4];
  }

  /** The small example of reboot: its listed boxes count 39 cubes. */
  lemma RebootExample()
    ensures Total(Rebooted([Step1, Step2, Step3, Step4])) == 39
  {
    ExampleFourSteps();
    ExampleCountsOn();
    ExampleCountsOff();
    ExampleCountsLast();
    var a, b, c := [Step1, Step2, Box3], [Box4, Box5, Box6], [Step4, Box8, Step4];
    TotalAppend(a, b);
    TotalAppend(a + b, c);
    assert a + b + c == [Step1, Step2, Box3, Box4, Box5, Box6, Step4, Box8, Step4];
  }
}
