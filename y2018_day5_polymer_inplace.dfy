/** The second solution of 2018 day 5: react removes reacting pairs from a
    copy of the polymer in place, stepping back one unit after each
    removal, and part two strips each unit type with an index that stays
    put after a removal. Both agree with the stack version in Polymer. */
module PolymerInPlace {
  import opened Polymer

  /** The units react when their upper cases agree but they differ; this
      is char::to_ascii_uppercase, which changes only a to z. */
  predicate Reacting(first: char, second: char)
  {
    Upper(first) == Upper(second) && first != second
  }

  /** The upper-case comparison is the same relation as reacts. */
  lemma ReactingIsReacts(first: char, second: char)
    ensures Reacting(first, second) <==> Reacts(first, second)
  {
  }

  /** Vec::remove(i). */
  function RemoveAt(buffer: seq<char>, i: nat): (r: seq<char>)
    requires i < |buffer|
    ensures |r| == |buffer| - 1
    ensures forall k :: 0 <= k < i ==> r[k] == buffer[k]
    ensures forall k :: i <= k < |r| ==> r[k] == buffer[k + 1]
  {
    buffer[..i] + buffer[i + 1..]
  }

  /** react: the loop looks at the pair at i; a reacting pair is removed
      and i steps back one unless it is 0. The result is the fully reacted
      polymer of the stack version: no pair in it reacts, and it is at most
      as long as the input with the same parity. */
  method React(data: seq<char>) returns (buffer: seq<char>)
    ensures buffer == Polymer.React(data)
    ensures Inert(buffer) && |buffer| <= |data| && |buffer| % 2 == |data| % 2
  {
    buffer := data;
    var i := 0;
    while i + 1 < |buffer|
      invariant i <= |buffer| || (i == 0 && buffer == [])
      invariant forall j :: 0 <= j < i && j + 1 < |buffer| ==> !Reacts(buffer[j], buffer[j + 1])
      invariant Polymer.React(buffer) == Polymer.React(data)
      decreases 2 * |buffer| - i
    {
      var first := buffer[i];
      var second := buffer[i + 1];
      ReactingIsReacts(first, second);
      if Reacting(first, second) {
        ghost var before := buffer;
        buffer := RemoveAt(buffer, i);
        buffer := RemoveAt(buffer, i);
        assert buffer == before[..i] + before[i + 2..];
        ReactRemovesPair(before, i);
        if i > 0 {
          i := i - 1;
        }
      } else {
        i := i + 1;
      }
    }
    ReactFixed(buffer);
    ReactLength(data);
  }

  /** The removal loop of part2: drop every unit equal to the candidate or
      to its upper case, keep the rest in order. */
  method StripUnit(data: seq<char>, candidate: char) returns (buffer: seq<char>)
    ensures buffer == RemoveUnit(data, candidate)
  {
    buffer := data;
    var higher := Upper(candidate);
    var i := 0;
    while i < |buffer|
      invariant i <= |buffer|
      invariant RemoveUnit(buffer[..i], candidate) == buffer[..i]
      invariant RemoveUnit(buffer, candidate) == RemoveUnit(data, candidate)
      decreases |buffer| - i
    {
      assert buffer == buffer[..i] + [buffer[i]] + buffer[i + 1..];
      RemoveUnitConcat(buffer[..i] + [buffer[i]], buffer[i + 1..], candidate);
      RemoveUnitConcat(buffer[..i], [buffer[i]], candidate);
      assert RemoveUnit([buffer[i]], candidate) == (if buffer[i] == candidate || buffer[i] == higher then [] else [buffer[i]]);
      if buffer[i] == candidate || buffer[i] == higher {
        buffer := RemoveAt(buffer, i);
        RemoveUnitConcat(buffer[..i], buffer[i..], candidate);
        assert buffer[..i] + buffer[i..] == buffer;
      } else {
        assert buffer[..i + 1] == buffer[..i] + [buffer[i]];
        i := i + 1;
      }
    }
    assert buffer[..i] == buffer;
  }

  /** part2 over the given candidates: the best length starts at the input
      length and the first strictly shorter reacted polymer wins. */
  method BestRemovalOver(data: seq<char>, units: seq<char>) returns (bestLength: nat, bestUnit: char)
    ensures bestLength <= |data|
    ensures forall k :: 0 <= k < |units| ==> bestLength <= Lengths(data, units)[k]
    ensures bestLength == |data| || exists k ::
      0 <= k < |units| && bestUnit == units[k] && bestLength == Lengths(data, units)[k]
      && forall j :: 0 <= j < k ==> bestLength < Lengths(data, units)[j]
  {
    ghost var lengths := Lengths(data, units);
    bestLength := |data|;
    bestUnit := 'a';
    for k := 0 to |units|
      invariant bestLength <= |data|
      invariant forall j :: 0 <= j < k ==> bestLength <= lengths[j]
      invariant bestLength == |data| || exists j ::
        0 <= j < k && bestUnit == units[j] && bestLength == lengths[j]
        && forall i :: 0 <= i < j ==> bestLength < lengths[i]
    {
      var buffer := StripUnit(data, units[k]);
      var reacted := React(buffer);
      LengthsAt(data, units, k);
      assert |reacted| == lengths[k];
      if |reacted| < bestLength {
        bestLength := |reacted|;
        bestUnit := units[k];
      }
    }
  }

  /** part2 over a to z. */
  method BestRemoval(data: seq<char>) returns (bestLength: nat, bestUnit: char)
    ensures bestLength <= |data|
    ensures forall k :: 0 <= k < |Alphabet| ==> bestLength <= Lengths(data, Alphabet)[k]
    ensures bestLength == |data| || exists k ::
      0 <= k < |Alphabet| && bestUnit == Alphabet[k] && bestLength == Lengths(data, Alphabet)[k]
      && forall j :: 0 <= j < k ==> bestLength < Lengths(data, Alphabet)[j]
  {
    bestLength, bestUnit := BestRemovalOver(data, Alphabet);
  }

  /** Every candidate length is at most the input length, so starting from
      the input length (as part2 does) or from the first candidate (as the
      stack version does) gives the same minimum. */
  lemma {:induction false} LengthsBounded(data: seq<char>, units: seq<char>, k: nat)
    requires k < |units|
    ensures Lengths(data, units)[k] <= |data|
  {
    LengthsAt(data, units, k);
    RemoveUnitLength(data, units[k]);
    ReactLength(RemoveUnit(data, units[k]));
  }

  /** The two part-two loops agree: a length that is at most every
      candidate length and at most the input is the smallest candidate
      length. */
  lemma SameMinimum(data: seq<char>, units: seq<char>, a: nat, b: nat)
    requires units != []
    requires a <= |data| && forall k :: 0 <= k < |units| ==> a <= Lengths(data, units)[k]
    requires a == |data| || a in Lengths(data, units)
    requires b in Lengths(data, units) && forall k :: 0 <= k < |units| ==> b <= Lengths(data, units)[k]
    ensures a == b
  {
    var j :| 0 <= j < |units| && Lengths(data, units)[j] == b;
    LengthsBounded(data, units, j);
  }
}
