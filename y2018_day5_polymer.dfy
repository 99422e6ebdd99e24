/** The polymer reduction of 2018 day 5: two adjacent units of the same
    type and opposite polarity (the same letter in upper and lower case)
    destroy each other. react sweeps the polymer once with a stack; part
    two removes one unit type in both cases before reacting. */
module Polymer {
  import opened Prelude

  predicate IsUpper(c: char)
  {
    'A' <= c <= 'Z'
  }

  /** str.islower on one ASCII character. */
  predicate IsLower(c: char)
  {
    'a' <= c <= 'z'
  }

  /** str.lower on one ASCII character. */
  function Lower(c: char): (r: char)
    ensures !IsUpper(r)
    ensures IsLower(r) <==> IsLower(c) || IsUpper(c)
  {
    if IsUpper(c) then (c as int - 'A' as int + 'a' as int) as char else c
  }

  /** str.upper on one ASCII character. */
  function Upper(c: char): (r: char)
    ensures !IsLower(r)
    ensures IsUpper(r) <==> IsLower(c) || IsUpper(c)
  {
    if IsLower(c) then (c as int - 'a' as int + 'A' as int) as char else c
  }

  /** The other case of a letter; other characters stay as they are. */
  function SwapCase(c: char): char
  {
    if IsLower(c) then Upper(c) else Lower(c)
  }

  /** reacts: the same letter lower-cased, and exactly one of the two in
      lower case. */
  predicate Reacts(c1: char, c2: char)
  {
    Lower(c1) == Lower(c2) && IsLower(c1) != IsLower(c2)
  }

  /** Two units react exactly when they are one letter in its two cases. */
  lemma ReactsIff(c1: char, c2: char)
    ensures Reacts(c1, c2) <==> (IsLower(c1) || IsUpper(c1)) && c2 == SwapCase(c1)
  {
  }

  lemma ReactsSymmetric(c1: char, c2: char)
    ensures Reacts(c1, c2) <==> Reacts(c2, c1)
  {
  }

  /** A unit that reacts with two others has them equal. */
  lemma ReactsUnique(a: char, b: char, c: char)
    requires Reacts(a, b) && Reacts(a, c)
    ensures b == c
  {
  }

  /** No two adjacent units react. */
  predicate Inert(s: seq<char>)
  {
    forall j :: 0 <= j < |s| - 1 ==> !Reacts(s[j], s[j + 1])
  }

  /** One step of the stack loop: pop the top when it reacts with c,
      push c otherwise. */
  function Push(stack: seq<char>, c: char): seq<char>
  {
    if stack != [] && Reacts(stack[|stack| - 1], c) then stack[..|stack| - 1] else stack + [c]
  }

  /** The stack after the loop has also consumed the units of s. */
  function StackFrom(stack: seq<char>, s: seq<char>): seq<char>
    decreases |s|
  {
    if s == [] then stack else StackFrom(Push(stack, s[0]), s[1..])
  }

  /** react: the fully reacted polymer. */
  function React(polymer: seq<char>): seq<char>
  {
    StackFrom([], polymer)
  }

  /** react's loop, with the result list as the stack. */
  method ReactPolymer(polymer: seq<char>) returns (result: seq<char>)
    ensures result == React(polymer)
  {
    var stack: seq<char> := [];
    for i := 0 to |polymer|
      invariant StackFrom(stack, polymer[i..]) == React(polymer)
    {
      assert polymer[i..][1..] == polymer[i + 1..];
      if stack != [] && Reacts(stack[|stack| - 1], polymer[i]) {
        stack := stack[..|stack| - 1];
      } else {
        stack := stack + [polymer[i]];
      }
    }
    result := stack;
  }

  lemma {:induction false} PushInert(stack: seq<char>, c: char)
    requires Inert(stack)
    ensures Inert(Push(stack, c))
  {
  }

  lemma {:induction false} StackFromInert(stack: seq<char>, s: seq<char>)
    requires Inert(stack)
    ensures Inert(StackFrom(stack, s))
    decreases |s|
  {
    if s != [] {
      PushInert(stack, s[0]);
      StackFromInert(Push(stack, s[0]), s[1..]);
    }
  }

  /** The reacted polymer has no adjacent units left that react. */
  lemma ReactInert(polymer: seq<char>)
    ensures Inert(React(polymer))
  {
    StackFromInert([], polymer);
  }

  lemma {:induction false} StackFromConcat(stack: seq<char>, s: seq<char>, t: seq<char>)
    ensures StackFrom(stack, s + t) == StackFrom(StackFrom(stack, s), t)
    decreases |s|
  {
    if s == [] {
      assert s + t == t;
    } else {
      assert (s + t)[0] == s[0] && (s + t)[1..] == s[1..] + t;
      StackFromConcat(Push(stack, s[0]), s[1..], t);
    }
  }

  /** Each unit either joins the stack or destroys one unit on it, so the
      stack length keeps the parity of the units consumed and never
      exceeds them. */
  lemma {:induction false} StackFromLength(stack: seq<char>, s: seq<char>)
    ensures |StackFrom(stack, s)| <= |stack| + |s|
    ensures |StackFrom(stack, s)| % 2 == (|stack| + |s|) % 2
    decreases |s|
  {
    if s != [] {
      StackFromLength(Push(stack, s[0]), s[1..]);
    }
  }

  /** A reaction removes two units: the reacted polymer is no longer than
      the polymer and has the same parity of length. */
  lemma ReactLength(polymer: seq<char>)
    ensures |React(polymer)| <= |polymer| && |React(polymer)| % 2 == |polymer| % 2
  {
    StackFromLength([], polymer);
  }

  /** Pushing onto a stack whose units all stay gives the stack and the
      units joined. */
  lemma {:induction false} StackFromKeeps(stack: seq<char>, s: seq<char>)
    requires Inert(stack + s)
    ensures StackFrom(stack, s) == stack + s
    decreases |s|
  {
    if s != [] {
      if stack != [] {
        assert (stack + s)[|stack| - 1] == stack[|stack| - 1];
        assert (stack + s)[|stack|] == s[0];
      }
      assert Push(stack, s[0]) == stack + [s[0]];
      assert stack + [s[0]] + s[1..] == stack + s;
      StackFromKeeps(stack + [s[0]], s[1..]);
    } else {
      assert stack + s == stack;
    }
  }

  /** react leaves a polymer alone exactly when nothing in it reacts. */
  lemma ReactFixed(polymer: seq<char>)
    ensures React(polymer) == polymer <==> Inert(polymer)
  {
    if Inert(polymer) {
      assert [] + polymer == polymer;
      StackFromKeeps([], polymer);
    } else {
      ReactInert(polymer);
    }
  }

  /** Reacting twice changes nothing more. */
  lemma ReactIdempotent(polymer: seq<char>)
    ensures React(React(polymer)) == React(polymer)
  {
    ReactInert(polymer);
    ReactFixed(React(polymer));
  }

  /** Two reacting units pushed onto a reacted stack leave it as it was. */
  lemma PushPair(stack: seq<char>, a: char, b: char)
    requires Inert(stack) && Reacts(a, b)
    ensures Push(Push(stack, a), b) == stack
  {
    if stack != [] && Reacts(stack[|stack| - 1], a) {
      var x := stack[|stack| - 1];
      ReactsSymmetric(x, a);
      ReactsUnique(a, x, b);
      var rest := stack[..|stack| - 1];
      if rest != [] {
        assert rest[|rest| - 1] == stack[|stack| - 2];
      }
      assert rest + [b] == stack;
    } else {
      assert (stack + [a])[..|stack|] == stack;
    }
  }

  /** The result of react does not depend on the order of the reactions:
      destroying any reacting pair first leads to the same polymer. */
  lemma ReactRemovesPair(polymer: seq<char>, i: nat)
    requires i + 1 < |polymer| && Reacts(polymer[i], polymer[i + 1])
    ensures React(polymer[..i] + polymer[i + 2..]) == React(polymer)
  {
    var front, back := polymer[..i], polymer[i + 2..];
    assert polymer == front + ([polymer[i], polymer[i + 1]] + back);
    StackFromConcat([], front, [polymer[i], polymer[i + 1]] + back);
    StackFromConcat([], front, back);
    StackFromInert([], front);
    StackFromPair(React(front), polymer[i], polymer[i + 1], back);
  }

  lemma StackFromPair(stack: seq<char>, a: char, b: char, back: seq<char>)
    requires Inert(stack) && Reacts(a, b)
    ensures StackFrom(stack, [a, b] + back) == StackFrom(stack, back)
  {
    PushPair(stack, a, b);
    assert ([a, b] + back)[0] == a && ([a, b] + back)[1..] == [b] + back;
    assert ([b] + back)[0] == b && ([b] + back)[1..] == back;
    assert StackFrom(stack, [a, b] + back) == StackFrom(Push(stack, a), [b] + back);
    assert StackFrom(Push(stack, a), [b] + back) == StackFrom(Push(Push(stack, a), b), back);
  }

  /** input.replace(c, "").replace(c.upper(), ""): the polymer without unit
      c in either case. */
  function RemoveUnit(s: seq<char>, c: char): seq<char>
  {
    if s == [] then []
    else (if s[0] == c || s[0] == Upper(c) then [] else [s[0]]) + RemoveUnit(s[1..], c)
  }

  /** Removal leaves no unit c in either case. */
  lemma {:induction false} RemoveUnitAvoids(s: seq<char>, c: char)
    ensures forall k :: 0 <= k < |RemoveUnit(s, c)| ==>
              RemoveUnit(s, c)[k] != c && RemoveUnit(s, c)[k] != Upper(c)
  {
    if s != [] {
      RemoveUnitAvoids(s[1..], c);
    }
  }

  /** Removal keeps every other unit as often as it occurs. */
  lemma {:induction false} RemoveUnitKeeps(s: seq<char>, c: char, x: char)
    requires x != c && x != Upper(c)
    ensures multiset(RemoveUnit(s, c))[x] == multiset(s)[x]
  {
    if s != [] {
      RemoveUnitKeeps(s[1..], c, x);
      var head := if s[0] == c || s[0] == Upper(c) then [] else [s[0]];
      assert multiset(RemoveUnit(s, c)) == multiset(head) + multiset(RemoveUnit(s[1..], c));
      assert s == [s[0]] + s[1..];
      assert multiset(s) == multiset{s[0]} + multiset(s[1..]);
      assert multiset(head)[x] == multiset{s[0]}[x];
    }
  }

  lemma {:induction false} RemoveUnitLength(s: seq<char>, c: char)
    ensures |RemoveUnit(s, c)| <= |s|
  {
    if s != [] {
      RemoveUnitLength(s[1..], c);
    }
  }

  lemma {:induction false} RemoveUnitConcat(s: seq<char>, t: seq<char>, c: char)
    ensures RemoveUnit(s + t, c) == RemoveUnit(s, c) + RemoveUnit(t, c)
  {
    if s == [] {
      assert s + t == t;
    } else {
      assert (s + t)[1..] == s[1..] + t;
      RemoveUnitConcat(s[1..], t, c);
    }
  }

  const Alphabet: seq<char> := "abcdefghijklmnopqrstuvwxyz"

  /** The reacted length after removing each unit of the alphabet. */
  function Lengths(polymer: seq<char>, units: seq<char>): (r: seq<nat>)
    ensures |r| == |units|
  {
    if units == [] then []
    else [|React(RemoveUnit(polymer, units[0]))|] + Lengths(polymer, units[1..])
  }

  /** Part two: the shortest reacted polymer over the 26 unit types. */
  method ShortestAfterRemoval(polymer: seq<char>) returns (minLength: nat)
    ensures minLength in Lengths(polymer, Alphabet)
    ensures forall k :: 0 <= k < |Alphabet| ==> minLength <= Lengths(polymer, Alphabet)[k]
  {
    minLength := ShortestOver(polymer, Alphabet);
  }

  /** The loop of part two over the given unit types: it keeps the first
      strictly smaller length. */
  method ShortestOver(polymer: seq<char>, units: seq<char>) returns (minLength: nat)
    requires units != []
    ensures minLength in Lengths(polymer, units)
    ensures forall k :: 0 <= k < |units| ==> minLength <= Lengths(polymer, units)[k]
  {
    ghost var lengths := Lengths(polymer, units);
    var best: Option<nat> := None;
    for k := 0 to |units|
      invariant best.None? <==> k == 0
      invariant best.Some? ==> best.value in lengths[..k]
      invariant best.Some? ==> forall j :: 0 <= j < k ==> best.value <= lengths[j]
    {
      var fixed := ReactPolymer(RemoveUnit(polymer, units[k]));
      LengthsAt(polymer, units, k);
      assert lengths[..k + 1] == lengths[..k] + [|fixed|];
      if best.None? || |fixed| < best.value {
        best := Some(|fixed|);
      }
    }
    assert lengths[..|units|] == lengths;
    minLength := best.value;
  }

  lemma {:induction false} LengthsAt(polymer: seq<char>, units: seq<char>, k: nat)
    requires k < |units|
    ensures Lengths(polymer, units)[k] == |React(RemoveUnit(polymer, units[k]))|
  {
    if k > 0 {
      LengthsAt(polymer, units[1..], k - 1);
    }
  }
}
