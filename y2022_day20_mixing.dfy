/**
  Grove Positioning System (2022, day 20).  The encrypted file is a
  circular list of numbers; mixing moves each number, in the order they
  appeared originally, as many places forward as its value (times the
  decryption key).  EncodedFile keeps the numbers in a VecDeque of
  (original index, value) pairs and moves one by rotating it, popping the
  number from the front, rotating the rest and pushing the number back.
*/
module GroveMixing {
  import opened Prelude
  import opened Modular

  /** One (original index, value) pair of the deque. */
  datatype Entry = Entry(original: nat, value: int)

  /** VecDeque::rotate_left(k): the first k entries move to the back. */
  function RotateLeft<T>(s: seq<T>, k: nat): (r: seq<T>)
    requires k <= |s|
    ensures |r| == |s|
  {
    s[k..] + s[..k]
  }

  /** Rotation only rearranges: the same entries, as often each. */
  lemma RotatePermutes<T>(s: seq<T>, k: nat)
    requires k <= |s|
    ensures multiset(RotateLeft(s, k)) == multiset(s)
  {
    assert s == s[..k] + s[k..];
  }

  /** x reduced into 0..n-1 for x below 2n: one lap round a circle of n places. */
  function Wrap(x: nat, n: nat): (r: nat)
    requires x < 2 * n
    ensures r < n && (r == x || r == x - n)
  {
    if x < n then x else x - n
  }

  /** For x below 2n, Wrap is the remainder by n. */
  lemma WrapMod(x: nat, n: nat)
    requires x < 2 * n
    ensures Wrap(x, n) == x % n
  {
    if x < n {
      ModSmall(x, n);
    } else {
      ModAddMul(x - n, 1, n);
      ModSmall(x - n, n);
    }
  }

  /** After rotate_left(k), position t holds what was k places further round. */
  lemma RotateIndex<T>(s: seq<T>, k: nat, t: nat)
    requires k <= |s| && t < |s|
    ensures RotateLeft(s, k)[t] == s[Wrap(k + t, |s|)]
  {
    if k + t < |s| {
      assert RotateLeft(s, k)[t] == s[k..][t];
    } else {
      assert RotateLeft(s, k)[t] == s[..k][t + k - |s|];
    }
  }

  /** The first position from i on holding original index o. */
  function FindFrom(s: seq<Entry>, o: nat, i: nat): (r: Option<nat>)
    requires i <= |s|
    ensures r.Some? ==>
              && i <= r.value < |s| && s[r.value].original == o
              && forall j :: i <= j < r.value ==> s[j].original != o
    ensures r.None? ==> forall j :: i <= j < |s| ==> s[j].original != o
    decreases |s| - i
  {
    if i == |s| then None
    else if s[i].original == o then Some(i)
    else FindFrom(s, o, i + 1)
  }

  /** The first position holding original index o (the find_map that decode unwraps). */
  function Find(s: seq<Entry>, o: nat): (r: Option<nat>)
    ensures r.Some? ==>
              && r.value < |s| && s[r.value].original == o
              && forall j :: 0 <= j < r.value ==> s[j].original != o
    ensures r.None? ==> forall j :: 0 <= j < |s| ==> s[j].original != o
  {
    FindFrom(s, o, 0)
  }

  /** Some entry of the deque has original index o. */
  ghost predicate Holds(s: seq<Entry>, o: nat)
  {
    exists i :: 0 <= i < |s| && s[i].original == o
  }

  /** Every original index 0..|s|-1 is somewhere in the deque. */
  ghost predicate Indexed(s: seq<Entry>)
  {
    forall o: nat :: o < |s| ==> Holds(s, o)
  }

  /** The number of places the popped entry travels: val * key rem_euclid the remaining length. */
  function Shift(e: Entry, key: int, rest: nat): (r: nat)
    requires rest > 0
    ensures r < rest
  {
    (e.value * key) % rest
  }

  /**
    The move of the entry at position idx: rotate it to the front, pop
    it, rotate the rest by its shift and push it back.
  */
  function MoveAt(s: seq<Entry>, idx: nat, key: int): (r: seq<Entry>)
    requires idx < |s| && |s| > 1
    ensures |r| == |s|
  {
    var front := RotateLeft(s, idx);
    var e, rest := front[0], front[1..];
    [e] + RotateLeft(rest, Shift(e, key, |rest|))
  }

  /** A move only rearranges the deque. */
  lemma MovePermutes(s: seq<Entry>, idx: nat, key: int)
    requires idx < |s| && |s| > 1
    ensures multiset(MoveAt(s, idx, key)) == multiset(s)
  {
    var front := RotateLeft(s, idx);
    var e, rest := front[0], front[1..];
    RotatePermutes(s, idx);
    RotatePermutes(rest, Shift(e, key, |rest|));
    assert front == [e] + rest;
  }

  /**
    One move of decode for original index o.  None when o is missing (the
    unwrap) or when the deque held one entry only, as rem_euclid by zero
    panics.
  */
  function Move(s: seq<Entry>, o: nat, key: int): (r: Option<seq<Entry>>)
    ensures r.Some? ==> |r.value| == |s|
    ensures r.None? <==> Find(s, o).None? || |s| == 1
  {
    match Find(s, o)
    case None => None
    case Some(idx) => if |s| == 1 then None else Some(MoveAt(s, idx, key))
  }

  /** The moves for original indices 0..k-1, in that order. */
  function Mix(s: seq<Entry>, key: int, k: nat): (r: Option<seq<Entry>>)
    ensures r.Some? ==> |r.value| == |s|
  {
    if k == 0 then Some(s)
    else
      match Mix(s, key, k - 1)
      case None => None
      case Some(t) => Move(t, k - 1, key)
  }

  /** One round of decode: every original index once. */
  function Round(s: seq<Entry>, key: int): (r: Option<seq<Entry>>)
    ensures r.Some? ==> |r.value| == |s|
  {
    Mix(s, key, |s|)
  }

  /** decode(key, rounds). */
  function DecodeRounds(s: seq<Entry>, key: int, rounds: nat): (r: Option<seq<Entry>>)
    ensures r.Some? ==> |r.value| == |s|
  {
    if rounds == 0 then Some(s)
    else
      match DecodeRounds(s, key, rounds - 1)
      case None => None
      case Some(t) => Round(t, key)
  }

  /** A rearrangement of an indexed deque is indexed. */
  lemma IndexedPermutation(s: seq<Entry>, t: seq<Entry>)
    requires Indexed(s) && multiset(s) == multiset(t) && |s| == |t|
    ensures Indexed(t)
  {
    forall o: nat | o < |t|
      ensures Holds(t, o)
    {
      assert Holds(s, o);
      var i :| 0 <= i < |s| && s[i].original == o;
      assert s[i] in multiset(t);
      var j :| 0 <= j < |t| && t[j] == s[i];
    }
  }

  /** An indexed deque holds every original index below its length. */
  lemma IndexedFinds(s: seq<Entry>, o: nat)
    requires Indexed(s) && o < |s|
    ensures Find(s, o).Some?
  {
    assert Holds(s, o);
  }

  /**
    Where a move puts every entry: the moved entry ends up at the front,
    and the entry t + 1 places after it is the one that stood
    1 + (t + shift) mod (n - 1) places after it before the move, so the
    others keep their circular order and the moved entry now sits shift
    places further round.
  */
  lemma MovePlaces(s: seq<Entry>, idx: nat, key: int)
    requires idx < |s| && |s| > 1
    ensures var n, r := |s|, MoveAt(s, idx, key);
      var shift := Shift(s[idx], key, n - 1);
      && r[0] == s[idx]
      && forall t :: 1 <= t < n ==> r[t] == s[Wrap(idx + 1 + Wrap(shift + t - 1, n - 1), n)]
  {
    var n := |s|;
    var front := RotateLeft(s, idx);
    var rest := front[1..];
    RotateIndex(s, idx, 0);
    var shift := Shift(s[idx], key, n - 1);
    var r := [s[idx]] + RotateLeft(rest, shift);
    assert MoveAt(s, idx, key) == r;
    forall t | 1 <= t < n
      ensures r[t] == s[Wrap(idx + 1 + Wrap(shift + t - 1, n - 1), n)]
    {
      var j := Wrap(shift + t - 1, n - 1);
      RotateIndex(rest, shift, t - 1);
      assert rest[j] == front[j + 1];
      RotateIndex(s, idx, j + 1);
    }
  }

  /** In an indexed deque every move finds its entry and keeps the deque
      indexed; only a one-entry deque panics. */
  lemma MoveIndexed(t: seq<Entry>, o: nat, key: int)
    requires Indexed(t) && o < |t|
    ensures Move(t, o, key).Some? <==> |t| != 1
    ensures Move(t, o, key).Some? ==> Indexed(Move(t, o, key).value)
  {
    IndexedFinds(t, o);
    var u := Move(t, o, key);
    if u.Some? {
      MovePermutes(t, Find(t, o).value, key);
      IndexedPermutation(t, u.value);
    }
  }

  /** Mix(s, key, k) is move k - 1 applied to Mix(s, key, k - 1). */
  lemma MixStep(s: seq<Entry>, key: int, k: nat)
    requires k > 0
    ensures Mix(s, key, k - 1).None? ==> Mix(s, key, k).None?
    ensures Mix(s, key, k - 1).Some? ==> Mix(s, key, k) == Move(Mix(s, key, k - 1).value, k - 1, key)
  {
  }

  /** In an indexed deque every move finds its entry; only a one-entry deque panics. */
  lemma MixDefined(s: seq<Entry>, key: int, k: nat)
    requires Indexed(s) && k <= |s|
    ensures Mix(s, key, k).Some? <==> k == 0 || |s| != 1
    ensures Mix(s, key, k).Some? ==> Indexed(Mix(s, key, k).value)
  {
    if k > 0 {
      MixDefined(s, key, k - 1);
      MixStep(s, key, k);
      var m := Mix(s, key, k - 1);
      if m.Some? {
        MoveIndexed(m.value, k - 1, key);
      }
    }
  }

  /** decode panics exactly on a one-entry file with at least one round, and keeps the file indexed. */
  lemma DecodeDefined(s: seq<Entry>, key: int, rounds: nat)
    requires Indexed(s)
    ensures DecodeRounds(s, key, rounds).Some? <==> rounds == 0 || |s| != 1
    ensures DecodeRounds(s, key, rounds).Some? ==> Indexed(DecodeRounds(s, key, rounds).value)
  {
    if rounds > 0 {
      DecodeDefined(s, key, rounds - 1);
      match DecodeRounds(s, key, rounds - 1)
      case None =>
      case Some(t) =>
        MixDefined(t, key, |t|);
    }
  }

  /** Mixing only rearranges the deque (the multiset of entries is kept). */
  lemma MixPermutes(s: seq<Entry>, key: int, k: nat)
    ensures Mix(s, key, k).Some? ==> multiset(Mix(s, key, k).value) == multiset(s)
  {
    if k > 0 {
      MixPermutes(s, key, k - 1);
      MixStep(s, key, k);
      var m := Mix(s, key, k - 1);
      if m.Some? && Move(m.value, k - 1, key).Some? {
        MovePermutes(m.value, Find(m.value, k - 1).value, key);
      }
    }
  }

  /** Any number of rounds only rearranges the deque. */
  lemma DecodePermutes(s: seq<Entry>, key: int, rounds: nat)
    ensures DecodeRounds(s, key, rounds).Some? ==> multiset(DecodeRounds(s, key, rounds).value) == multiset(s)
  {
    if rounds > 0 {
      DecodePermutes(s, key, rounds - 1);
      var m := DecodeRounds(s, key, rounds - 1);
      if m.Some? {
        MixPermutes(m.value, key, |m.value|);
      }
    }
  }

  /** The deque read from input lines: each value with its line number. */
  function Enumerate(values: seq<int>): (r: seq<Entry>)
    ensures |r| == |values| && Indexed(r)
    ensures forall i :: 0 <= i < |r| ==> r[i] == Entry(i, values[i])
  {
    var r := seq(|values|, i requires 0 <= i < |values| => Entry(i, values[i]));
    assert forall o: nat | o < |r| :: r[o].original == o && Holds(r, o);
    r
  }

  /** The values of the deque, front to back. */
  function Values(s: seq<Entry>): (r: seq<int>)
    ensures |r| == |s| && forall i :: 0 <= i < |s| ==> r[i] == s[i].value
  {
    seq(|s|, i requires 0 <= i < |s| => s[i].value)
  }

  /** The first position from i on holding the value 0. */
  function FindZeroFrom(s: seq<Entry>, i: nat): (r: Option<nat>)
    requires i <= |s|
    ensures r.Some? ==>
              && i <= r.value < |s| && s[r.value].value == 0
              && forall j :: i <= j < r.value ==> s[j].value != 0
    ensures r.None? ==> forall j :: i <= j < |s| ==> s[j].value != 0
    decreases |s| - i
  {
    if i == |s| then None
    else if s[i].value == 0 then Some(i)
    else FindZeroFrom(s, i + 1)
  }

  /** The first position holding the value 0 (the find_map that iter_zero unwraps). */
  function FindZero(s: seq<Entry>): (r: Option<nat>)
    ensures r.Some? ==>
              && r.value < |s| && s[r.value].value == 0
              && forall j :: 0 <= j < r.value ==> s[j].value != 0
    ensures r.None? ==> forall j :: 0 <= j < |s| ==> s[j].value != 0
  {
    FindZeroFrom(s, 0)
  }

  /**
    iter_zero: the values taken from the cycled deque, skipping to the
    first 0 and taking one lap.  None when there is no 0 (the unwrap).
  */
  function IterZero(s: seq<Entry>): (r: Option<seq<int>>)
    ensures r.None? <==> forall j :: 0 <= j < |s| ==> s[j].value != 0
    ensures r.Some? ==> |r.value| == |s| && r.value[0] == 0
  {
    match FindZero(s)
    case None => None
    case Some(z) =>
      var vs := Values(s);
      assert RotateLeft(vs, z)[0] == vs[z];
      Some(RotateLeft(vs, z))
  }

  /** The i-th value iter_zero yields is i places round from the first 0. */
  lemma IterZeroPlaces(s: seq<Entry>, i: nat)
    requires FindZero(s).Some? && i < |s|
    ensures IterZero(s).value[i] == s[Wrap(FindZero(s).value + i, |s|)].value
  {
    var z := FindZero(s).value;
    var vs := Values(s);
    assert IterZero(s).value == RotateLeft(vs, z);
    RotateIndex(vs, z, i);
  }

  /** iter_zero yields every value of the deque, as often as it occurs. */
  lemma IterZeroPermutes(s: seq<Entry>)
    requires FindZero(s).Some?
    ensures multiset(IterZero(s).value) == multiset(Values(s))
  {
    RotatePermutes(Values(s), FindZero(s).value);
  }

  /** get(idx): offset idx % len into iter_zero.  None when the deque is empty or has no 0. */
  function Get(s: seq<Entry>, idx: nat): (r: Option<int>)
    ensures r.Some? <==> |s| > 0 && FindZero(s).Some?
    ensures r.Some? ==> r.value == s[(FindZero(s).value + idx) % |s|].value
  {
    if |s| == 0 then None
    else
      match IterZero(s)
      case None => None
      case Some(vs) =>
        var z, off := FindZero(s).value, idx % |s|;
        IterZeroPlaces(s, off);
        WrapMod(z + off, |s|);
        ModOfMod(z, idx, |s|);
        Some(vs[idx % |s|])
  }

  lemma ModOfMod(z: nat, idx: nat, n: nat)
    requires n > 0
    ensures (z + idx % n) % n == (z + idx) % n
  {
    assert z + idx == (z + idx % n) + (idx / n) * n;
    ModAddMul(z + idx % n, idx / n, n);
  }

  /** coordinates(1000, 2000, 3000), summed: the values 1000, 2000 and 3000 places after the 0. */
  function GroveSum(s: seq<Entry>): (r: Option<int>)
    ensures r.Some? <==> |s| > 0 && FindZero(s).Some?
    ensures r.Some? ==>
              var z, n := FindZero(s).value, |s|;
              r.value == s[(z + 1000) % n].value + s[(z + 2000) % n].value + s[(z + 3000) % n].value
  {
    match Get(s, 1000)
    case None => None
    case Some(x) => Some(x + Get(s, 2000).value + Get(s, 3000).value)
  }

  /** The file read, decoded and summed; None where the source panics. */
  function Solve(values: seq<int>, key: int, rounds: nat): (r: Option<int>)
  {
    var t :- DecodeRounds(Enumerate(values), key, rounds);
    GroveSum(t)
  }

  /** The decryption key of part two. */
  const DecryptionKey: int := 811589153

  /** part_one: one round with key 1. */
  function PartOneAnswer(values: seq<int>): Option<int>
  {
    Solve(values, 1, 1)
  }

  /** part_two: ten rounds with the decryption key, the sum times the key. */
  function PartTwoAnswer(values: seq<int>): Option<int>
  {
    var g :- Solve(values, DecryptionKey, 10);
    Some(g * DecryptionKey)
  }

  /** Rearranging the entries neither adds nor removes a 0. */
  lemma ZeroKept(s: seq<Entry>, t: seq<Entry>)
    requires multiset(s) == multiset(t)
    ensures FindZero(s).Some? <==> FindZero(t).Some?
  {
    if FindZero(s).Some? {
      var e := s[FindZero(s).value];
      assert e in multiset(t);
      var j :| 0 <= j < |t| && t[j] == e;
    }
    if FindZero(t).Some? {
      var e := t[FindZero(t).value];
      assert e in multiset(s);
      var j :| 0 <= j < |s| && s[j] == e;
    }
  }

  /**
    The answer exists exactly when the source does not panic: the file
    holds a 0 (iter_zero's unwrap; this also rules out the empty file,
    whose get divides by zero) and, when there are rounds, more than one
    number (rem_euclid by zero).
  */
  lemma SolveDefined(values: seq<int>, key: int, rounds: nat)
    ensures Solve(values, key, rounds).Some? <==> (rounds == 0 || |values| != 1) && 0 in values
  {
    var s := Enumerate(values);
    DecodeDefined(s, key, rounds);
    DecodePermutes(s, key, rounds);
    if 0 in values {
      var i :| 0 <= i < |values| && values[i] == 0;
      assert s[i].value == 0;
    }
    if FindZero(s).Some? {
      assert values[FindZero(s).value] == 0;
    }
    var d := DecodeRounds(s, key, rounds);
    if d.Some? {
      ZeroKept(s, d.value);
    }
  }

  /** The encrypted file as the solution holds it. */
  class EncodedFile {
    var data: seq<Entry>

    ghost predicate Valid()
      reads this
    {
      Indexed(data)
    }

    /** from_str: the i-th line becomes (i, value). */
    constructor (values: seq<int>)
      ensures Valid() && data == Enumerate(values)
    {
      data := Enumerate(values);
    }

    /** Finds the entry of original index o by its position, as find_map does. */
    method Position(o: nat) returns (idx: Option<nat>)
      ensures idx == Find(data, o)
    {
      var i := 0;
      while i < |data|
        invariant 0 <= i <= |data|
        invariant forall j :: 0 <= j < i ==> data[j].original != o
      {
        if data[i].original == o {
          return Some(i);
        }
        i := i + 1;
      }
      return None;
    }

    /**
      The body of decode's inner loop for original index o: find it,
      rotate it to the front, pop it, rotate the rest and push it back.
      ok is false where the source panics (rem_euclid by zero once the
      only entry is popped).
    */
    method MoveEntry(o: nat, key: int) returns (ok: bool)
      requires Valid() && o < |data|
      modifies this
      ensures ok <==> |old(data)| != 1
      ensures ok ==> Valid() && Some(data) == Move(old(data), o, key)
    {
      ghost var before := data;
      IndexedFinds(data, o);
      MoveIndexed(data, o, key);
      var found := Position(o);
      var idx := found.value;
      data := RotateLeft(data, idx);
      var e := data[0];
      data := data[1..];
      if |data| == 0 {
        return false;
      }
      data := RotateLeft(data, Shift(e, key, |data|));
      data := [e] + data;
      assert data == MoveAt(before, idx, key);
      ok := true;
    }

    /**
      decode(key, rounds): every round moves each original index once, in
      order.  ok is false where the source panics (a one-entry file).
    */
    method Decode(key: int, rounds: nat) returns (ok: bool)
      requires Valid()
      modifies this
      ensures ok <==> rounds == 0 || |old(data)| != 1
      ensures ok ==> Valid() && Some(data) == DecodeRounds(old(data), key, rounds)
    {
      ghost var start := data;
      for r := 0 to rounds
        invariant DecodeRounds(start, key, r) == Some(data)
        invariant |data| == |start| && Valid()
        invariant r > 0 ==> |start| != 1
      {
        ghost var roundStart := data;
        var n := |data|;
        for o := 0 to n
          invariant |data| == n && Valid()
          invariant Mix(roundStart, key, o) == Some(data)
        {
          ok := MoveEntry(o, key);
          if !ok {
            return;
          }
          MixStep(roundStart, key, o + 1);
        }
      }
      ok := true;
    }
  }

  /** part_one: the file decoded once with key 1. */
  method PartOne(values: seq<int>) returns (r: Option<int>)
    ensures r == PartOneAnswer(values)
  {
    var file := new EncodedFile(values);
    var ok := file.Decode(1, 1);
    DecodeDefined(Enumerate(values), 1, 1);
    if !ok {
      return None;
    }
    r := GroveSum(file.data);
  }

  /** part_two: ten rounds with the decryption key; the sum times the key. */
  method PartTwo(values: seq<int>) returns (r: Option<int>)
    ensures r == PartTwoAnswer(values)
  {
    var file := new EncodedFile(values);
    var ok := file.Decode(DecryptionKey, 10);
    DecodeDefined(Enumerate(values), DecryptionKey, 10);
    if !ok {
      return None;
    }
    var sum := GroveSum(file.data);
    if sum.None? {
      return None;
    }
    r := Some(sum.value * DecryptionKey);
  }
}
