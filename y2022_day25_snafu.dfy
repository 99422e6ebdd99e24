/** Balanced base-five ("SNAFU") numbers: digit values -2..2, written with
    the characters '=', '-', '0', '1', '2', most significant digit first. */
module Snafu {
  import opened Prelude

  predicate IsDigit(d: int) { -2 <= d <= 2 }

  predicate IsSymbol(c: char) { c == '=' || c == '-' || c == '0' || c == '1' || c == '2' }

  /** The number a digit string stands for: each digit times five to the
      power of its position, positions counted from the right from zero. */
  function PlaceValue(ds: seq<int>): int
  {
    if ds == [] then 0 else ds[0] * Pow(5, |ds| - 1) + PlaceValue(ds[1..])
  }

  /** Horner's rule: appending a digit on the right multiplies by five. */
  lemma {:induction false} PlaceValueAppend(ds: seq<int>, d: int)
    ensures PlaceValue(ds + [d]) == 5 * PlaceValue(ds) + d
  {
    if ds == [] {
      assert [d][1..] == [];
    } else {
      assert (ds + [d])[1..] == ds[1..] + [d];
      PlaceValueAppend(ds[1..], d);
      assert Pow(5, |ds|) == 5 * Pow(5, |ds| - 1);
    }
  }

  /** Snafu::value: accumulate digit * 5^offset over the digits read from
      the right. */
  method Value(digits: seq<int>) returns (total: int)
    ensures total == PlaceValue(digits)
  {
    total := 0;
    var offset := 0;
    while offset < |digits|
      invariant 0 <= offset <= |digits|
      invariant total == PlaceValue(digits[|digits| - offset..])
    {
      var i := |digits| - 1 - offset;
      assert digits[i..] == [digits[i]] + digits[i + 1..];
      total := total + digits[i] * Pow(5, offset);
      offset := offset + 1;
    }
    assert digits[0..] == digits;
  }

  /** Snafu::from_decimal. The source pushes the least significant digit
      first and reverses at the end; prepending each digit builds the same
      sequence. A remainder of 3 or 4 becomes a digit -2 or -1 with a carry. */
  method FromDecimal(decimal: int) returns (digits: seq<int>)
    ensures forall i :: 0 <= i < |digits| ==> IsDigit(digits[i])
    ensures decimal > 0 ==> PlaceValue(digits) == decimal
    ensures decimal > 0 ==> digits != [] && digits[0] in {1, 2}
    ensures decimal <= 0 ==> digits == []
  {
    digits := [];
    var state := decimal;
    while state > 0
      invariant forall i :: 0 <= i < |digits| ==> IsDigit(digits[i])
      invariant state >= 0 ==> decimal == state * Pow(5, |digits|) + PlaceValue(digits)
      invariant decimal > 0 ==> state >= 0
      invariant decimal <= 0 ==> state == decimal && digits == []
      invariant state == 0 && decimal > 0 ==> digits != [] && digits[0] in {1, 2}
      decreases state
    {
      ghost var before := state;
      var remainder := state % 5;
      var d;
      if remainder >= 3 {
        d := remainder - 5;
        state := state + (5 - remainder);
      } else {
        d := remainder;
      }
      state := state / 5;
      BalancedStep(before, d, state);
      PrependDigit(digits, d, state);
      digits := [d] + digits;
    }
  }

  /** One round of from_decimal: the digit, and the quotient left over. */
  lemma BalancedStep(state: int, d: int, q: int)
    requires state > 0
    requires d == if state % 5 >= 3 then state % 5 - 5 else state % 5
    requires q == if state % 5 >= 3 then (state + (5 - state % 5)) / 5 else state / 5
    ensures IsDigit(d) && state == 5 * q + d && 0 <= q < state
    ensures q == 0 ==> d in {1, 2}
  {
  }

  /** Prepending the digit d to digits turns 5q + d over them into q. */
  lemma PrependDigit(digits: seq<int>, d: int, q: int)
    ensures (5 * q + d) * Pow(5, |digits|) + PlaceValue(digits) == q * Pow(5, |[d] + digits|) + PlaceValue([d] + digits)
  {
    assert ([d] + digits)[1..] == digits;
    assert Pow(5, |digits| + 1) == 5 * Pow(5, |digits|);
  }

  function DigitSymbol(d: int): (c: char)
    requires IsDigit(d)
    ensures IsSymbol(c) && SymbolDigit(c) == d
  {
    match d
    case 0 => '0'
    case 1 => '1'
    case 2 => '2'
    case -1 => '-'
    case -2 => '='
  }

  function SymbolDigit(c: char): (d: int)
    requires IsSymbol(c)
    ensures IsDigit(d)
  {
    match c
    case '0' => 0
    case '1' => 1
    case '2' => 2
    case '-' => -1
    case '=' => -2
  }

  lemma SymbolDigitInverse()
    ensures forall c :: IsSymbol(c) ==> DigitSymbol(SymbolDigit(c)) == c
  {
  }

  /** Snafu::encode: every digit to its symbol. */
  function Encode(digits: seq<int>): (s: string)
    requires forall i :: 0 <= i < |digits| ==> IsDigit(digits[i])
    ensures |s| == |digits|
    ensures forall i :: 0 <= i < |s| ==> IsSymbol(s[i]) && SymbolDigit(s[i]) == digits[i]
  {
    seq(|digits|, i requires 0 <= i < |digits| => DigitSymbol(digits[i]))
  }

  /** Snafu::from_str: every symbol to its digit; any other character hits
      unreachable!() and panics (None). */
  function FromStr(s: string): (r: Option<seq<int>>)
    ensures r.None? <==> exists i :: 0 <= i < |s| && !IsSymbol(s[i])
    ensures r.Some? ==> |r.value| == |s|
    ensures r.Some? ==> forall i :: 0 <= i < |s| ==> IsDigit(r.value[i]) && DigitSymbol(r.value[i]) == s[i]
  {
    if exists i :: 0 <= i < |s| && !IsSymbol(s[i]) then None
    else
      SymbolDigitInverse();
      Some(seq(|s|, i requires 0 <= i < |s| => SymbolDigit(s[i])))
  }

  /** A string of symbols reads back to itself. */
  lemma EncodeFromStr(s: string)
    requires forall i :: 0 <= i < |s| ==> IsSymbol(s[i])
    ensures FromStr(s).Some? && Encode(FromStr(s).value) == s
  {
  }

  /** The string that writes out the digits d reads as d. */
  lemma ReadDigits(s: string, d: seq<int>)
    requires |s| == |d| && forall i :: 0 <= i < |d| ==> IsDigit(d[i]) && DigitSymbol(d[i]) == s[i]
    ensures FromStr(s) == Some(d)
  {
    var r := FromStr(s);
    assert r.Some?;
    forall i | 0 <= i < |d|
      ensures r.value[i] == d[i]
    {
      assert SymbolDigit(DigitSymbol(r.value[i])) == r.value[i];
      assert SymbolDigit(DigitSymbol(d[i])) == d[i];
    }
    assert r.value == d;
  }

  /** Digits written out read back to themselves. */
  lemma FromStrEncode(digits: seq<int>)
    requires forall i :: 0 <= i < |digits| ==> IsDigit(digits[i])
    ensures FromStr(Encode(digits)) == Some(digits)
  {
    ReadDigits(Encode(digits), digits);
  }

  /** "1" is one. */
  lemma ExampleOne()
    ensures FromStr("1") == Some([1]) && PlaceValue([1]) == 1
  {
    ReadDigits("1", [1]);
  }

  /** "1=11-2" is 2022. */
  lemma ExampleYear()
    ensures FromStr("1=11-2") == Some([1, -2, 1, 1, -1, 2]) && PlaceValue([1, -2, 1, 1, -1, 2]) == 2022
  {
    ReadDigits("1=11-2", [1, -2, 1, 1, -1, 2]);
  }

  /** "2=-01" is 976. */
  lemma ExampleSmall()
    ensures FromStr("2=-01") == Some([2, -2, -1, 0, 1]) && PlaceValue([2, -2, -1, 0, 1]) == 976
  {
    ReadDigits("2=-01", [2, -2, -1, 0, 1]);
  }

  /** "1-0---0" is 12345. */
  lemma ExampleLarge()
    ensures FromStr("1-0---0") == Some([1, -1, 0, -1, -1, -1, 0]) && PlaceValue([1, -1, 0, -1, -1, -1, 0]) == 12345
  {
    ReadDigits("1-0---0", [1, -1, 0, -1, -1, -1, 0]);
  }

  /** A character outside the alphabet panics. */
  lemma ExampleBad()
    ensures FromStr("13").None?
  {
    assert !IsSymbol("13"[1]);
  }
}
