/** The plutonian pebbles of 2024 day 11: each blink replaces a stone by
    one or two stones, and the memoised count of the stones one stone
    turns into after a number of blinks. */
module PlutonianPebbles {

  /** 10^k. */
  function Pow10(k: nat): (r: nat)
    ensures r >= 1
  {
    if k == 0 then 1 else 10 * Pow10(k - 1)
  }

  lemma {:induction false} Pow10Add(a: nat, b: nat)
    ensures Pow10(a + b) == Pow10(a) * Pow10(b)
  {
    if a > 0 {
      Pow10Add(a - 1, b);
    }
  }

  /** stone.to_string().len(): the number of decimal digits, 1 for 0. */
  function DecimalLength(n: nat): (r: nat)
    ensures r >= 1
  {
    if n < 10 then 1 else 1 + DecimalLength(n / 10)
  }

  /** A number has exactly k digits when it lies in [10^(k-1), 10^k). */
  lemma {:induction false} DecimalLengthBounds(n: nat)
    ensures n < Pow10(DecimalLength(n))
    ensures n >= 10 ==> Pow10(DecimalLength(n) - 1) <= n
  {
    if n >= 10 {
      DecimalLengthBounds(n / 10);
    }
  }

  /** The digits of a number in [10^(k-1), 10^k) number k. */
  lemma {:induction false} DecimalLengthOf(n: nat, k: nat)
    requires 1 <= k && n < Pow10(k) && (k > 1 ==> Pow10(k - 1) <= n)
    ensures DecimalLength(n) == k
  {
    if k > 1 {
      assert n >= 10 by {
        assert Pow10(k - 1) >= 10 by { assert Pow10(k - 1) == 10 * Pow10(k - 2); }
      }
      DecimalLengthOf(n / 10, k - 1);
    }
  }

  /** The stones one blink turns a stone into: 0 becomes 1; a number with
      an even number of digits splits into its left and its right half,
      the right half read without its leading zeros; any other number is
      multiplied by 2024. */
  function Blink(stone: nat): (r: seq<nat>)
    ensures 1 <= |r| <= 2
  {
    if stone == 0 then [1]
    else if DecimalLength(stone) % 2 == 0 then
      var half := Pow10(DecimalLength(stone) / 2);
      [stone / half, stone % half]
    else [stone * 2024]
  }

  /** The two halves have half the digits each (the right one at most),
      and side by side they write the stone again. */
  lemma SplitHalves(stone: nat)
    requires stone != 0 && DecimalLength(stone) % 2 == 0
    ensures var h := DecimalLength(stone) / 2; var r := Blink(stone);
      && |r| == 2
      && r[0] * Pow10(h) + r[1] == stone
      && DecimalLength(r[0]) == h
      && r[1] < Pow10(h)
  {
    var k := DecimalLength(stone);
    var h := k / 2;
    DecimalLengthBounds(stone);
    Pow10Add(h, h);
    Pow10Add(h - 1, h);
    assert k == h + h && k - 1 == (h - 1) + h;
    var half := Pow10(h);
    var left := stone / half;
    QuotientBounds(stone, half, if h > 1 then Pow10(h - 1) else 0);
    DecimalLengthOf(left, h);
    assert Blink(stone) == [left, stone % half];
  }

  /** A number in [low * d, d * d) divided by d lies in [low, d). */
  lemma QuotientBounds(x: nat, d: nat, low: nat)
    requires d > 0 && x < d * d && low * d <= x
    ensures low <= x / d < d
    ensures (x / d) * d + x % d == x && x % d < d
  {
    var q := x / d;
    assert x == q * d + x % d;
    assert (q + 1) * d == q * d + d;
    MulLess(q, d, d);
    MulLess(low, q + 1, d);
  }

  /** Products by the same positive factor compare as the numbers do. */
  lemma MulLess(a: nat, b: nat, d: nat)
    requires d > 0 && a * d < b * d
    ensures a < b
  {
  }

  /** One blink on every stone, in order. */
  function BlinkAll(stones: seq<nat>): (r: seq<nat>)
    ensures |stones| <= |r| <= 2 * |stones|
  {
    if stones == [] then [] else BlinkAll(stones[..|stones| - 1]) + Blink(stones[|stones| - 1])
  }

  /** The stones after count blinks. */
  function Expand(stones: seq<nat>, count: nat): seq<nat>
    decreases count
  {
    if count == 0 then stones else Expand(BlinkAll(stones), count - 1)
  }

  /** The value blink_stone computes: how many stones one stone becomes
      after count blinks. */
  function Count(stone: nat, count: nat): (r: nat)
    ensures r >= 1
    decreases count, 0
  {
    if count == 0 then 1 else Total(Blink(stone), count - 1)
  }

  /** The counts of several stones added up, as the sum in blink_many. */
  function Total(stones: seq<nat>, count: nat): (r: nat)
    ensures r >= |stones|
    decreases count, 1, |stones|
  {
    if stones == [] then 0 else Total(stones[..|stones| - 1], count) + Count(stones[|stones| - 1], count)
  }

  lemma {:induction false} TotalAppend(a: seq<nat>, b: seq<nat>, count: nat)
    ensures Total(a + b, count) == Total(a, count) + Total(b, count)
    decreases |b|
  {
    if b == [] {
      assert a + b == a;
    } else {
      var n := |b| - 1;
      assert (a + b)[..|a + b| - 1] == a + b[..n];
      TotalAppend(a, b[..n], count);
    }
  }

  /** Blinking once more is counting the stones of one blink. */
  lemma {:induction false} TotalBlinkAll(stones: seq<nat>, count: nat)
    ensures Total(BlinkAll(stones), count) == Total(stones, count + 1)
    decreases |stones|
  {
    if stones != [] {
      var n := |stones| - 1;
      TotalBlinkAll(stones[..n], count);
      TotalAppend(BlinkAll(stones[..n]), Blink(stones[n]), count);
    }
  }

  /** With no blink left every stone counts once. */
  lemma {:induction false} TotalZero(stones: seq<nat>)
    ensures Total(stones, 0) == |stones|
  {
    if stones != [] {
      TotalZero(stones[..|stones| - 1]);
    }
  }

  /** The count is the number of stones of the full expansion. */
  lemma {:induction false} TotalExpand(stones: seq<nat>, count: nat)
    ensures Total(stones, count) == |Expand(stones, count)|
    decreases count
  {
    if count == 0 {
      TotalZero(stones);
    } else {
      calc {
        Total(stones, count);
        == { TotalBlinkAll(stones, count - 1); }
        Total(BlinkAll(stones), count - 1);
        == { TotalExpand(BlinkAll(stones), count - 1); }
        |Expand(BlinkAll(stones), count - 1)|;
      }
    }
  }

  /** blink_stone with count 0 is 1, and otherwise the stones the number
      turns into after count blinks. */
  lemma CountExpand(stone: nat, count: nat)
    ensures Count(stone, count) == |Expand([stone], count)|
  {
    assert [stone][..0] == [];
    TotalExpand([stone], count);
  }

  /** The vector next of blink_stone, pushed stone by stone. */
  method NextStones(stone: nat) returns (next: seq<nat>)
    ensures next == Blink(stone)
  {
    next := [];
    if stone == 0 {
      next := next + [1];
    } else if DecimalLength(stone) % 2 == 0 {
      var half := Pow10(DecimalLength(stone) / 2);
      next := next + [stone / half];
      next := next + [stone % half];
    } else {
      next := next + [stone * 2024];
    }
  }

  /** The memory HashMap of blink_many: what blink_stone has found for
      (stone, count). */
  class Memory {
    var entries: map<(nat, nat), nat>

    /** Every remembered entry is the count it stands for. */
    ghost predicate Valid()
      reads this
    {
      forall key | key in entries :: entries[key] == Count(key.0, key.1)
    }

    constructor()
      ensures Valid() && entries == map[]
    {
      entries := map[];
    }

    /** Input::blink_stone. */
    method BlinkStone(stone: nat, count: nat) returns (r: nat)
      requires Valid()
      modifies this
      ensures Valid()
      ensures r == Count(stone, count)
      ensures forall key | key in old(entries) :: key in entries
      decreases count, 0
    {
      if count == 0 {
        return 1;
      }
      if (stone, count) in entries {
        return entries[(stone, count)];
      }
      var next := NextStones(stone);
      var result := BlinkEach(next, count - 1);
      assert result == Count(stone, count);
      ghost var before := entries;
      entries := entries[(stone, count) := result];
      forall key | key in entries
        ensures entries[key] == Count(key.0, key.1)
      {
        if key != (stone, count) {
          assert key in before && entries[key] == before[key];
        }
      }
      return result;
    }

    /** The sum over several stones of blink_stone, sharing this memory:
        the iterator sum of blink_stone and of blink_many. */
    method BlinkEach(stones: seq<nat>, count: nat) returns (r: nat)
      requires Valid()
      modifies this
      ensures Valid()
      ensures r == Total(stones, count)
      ensures forall key | key in old(entries) :: key in entries
      decreases count, 1
    {
      r := 0;
      for i := 0 to |stones|
        invariant Valid()
        invariant r == Total(stones[..i], count)
        invariant forall key | key in old(entries) :: key in entries
      {
        var c := BlinkStone(stones[i], count);
        assert stones[..i + 1][..i] == stones[..i];
        r := r + c;
      }
      assert stones[..|stones|] == stones;
    }
  }

  /** Input::blink_many: a fresh memory shared by all the stones, and the
      stones each one turns into after count blinks, added up. */
  method BlinkMany(stones: seq<nat>, count: nat) returns (r: nat)
    ensures r == Total(stones, count)
    ensures r == |Expand(stones, count)|
  {
    var memory := new Memory();
    r := memory.BlinkEach(stones, count);
    TotalExpand(stones, count);
  }

  /** part_one and part_two: 25 and 75 blinks. */
  method PartOne(stones: seq<nat>) returns (r: nat)
    ensures r == |Expand(stones, 25)|
  {
    r := BlinkMany(stones, 25);
  }

  method PartTwo(stones: seq<nat>) returns (r: nat)
    ensures r == |Expand(stones, 75)|
  {
    r := BlinkMany(stones, 75);
  }

  // The example of the puzzle: "125 17".

  /** 125 has three digits, so it is multiplied; 17 splits into 1 and 7;
      253000 splits into 253 and 0; 0 becomes 1. */
  lemma BlinkExamples()
    ensures Blink(125) == [253000]
    ensures Blink(17) == [1, 7]
    ensures Blink(253000) == [253, 0]
    ensures Blink(1000) == [10, 0]
    ensures Blink(0) == [1]
  {
    assert DecimalLength(125) == 3;
    assert DecimalLength(17) == 2;
    assert DecimalLength(253000) == 6;
    assert DecimalLength(1000) == 4;
  }

  /** "125 17" becomes "253000 1 7" and then "253 0 2024 14168". */
  lemma ExpandExample()
    ensures Expand([125, 17], 1) == [253000, 1, 7]
    ensures Expand([125, 17], 2) == [253, 0, 2024, 14168]
    ensures Total([125, 17], 2) == 4
  {
    BlinkExamples();
    assert DecimalLength(7) == 1 && DecimalLength(1) == 1;
    var once := [253000, 1, 7];
    assert BlinkAll([125, 17]) == once by {
      assert [125, 17][..1] == [125];
      assert [125][..0] == [];
    }
    assert BlinkAll(once) == [253, 0, 2024, 14168] by {
      assert once[..2] == [253000, 1];
      assert once[..2][..1] == [253000];
      assert [253000][..0] == [];
    }
    assert Expand([125, 17], 1) == Expand(once, 0);
    TotalExpand([125, 17], 2);
  }
}
