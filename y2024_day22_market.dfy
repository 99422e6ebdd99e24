/** The monkey market of 2024 day 22: a buyer's secret number evolves by
    three mix-and-prune stages, its last decimal digit is the price, and
    each run of four price changes is worth the price at its first
    occurrence. */
module MonkeyMarket {
  import opened Prelude

  /** Four consecutive price changes. */
  type Window = (int, int, int, int)

  /** A price and its change from the price before it. */
  type Change = (int, int)

  /** SecretNumber::prune: the value modulo 2^24. */
  function PruneValue(v: bv64): (r: bv64)
    ensures r < 16777216
  {
    v % 16777216
  }

  /** Mixing a number into the secret: bitwise exclusive or. */
  function Mix(secret: bv64, given: bv64): bv64
  {
    given ^ secret
  }

  /** The three numbers step mixes in: the value shifted left by 6, right
      by 5 and left by 11, the bits shifted past 64 lost. */
  function Times64(v: bv64): bv64
  {
    v << 6
  }

  function Div32(v: bv64): bv64
  {
    v >> 5
  }

  function Times2048(v: bv64): bv64
  {
    v << 11
  }

  /** SecretNumber::step: three mix-and-prune stages. */
  function Evolve(v: bv64): (r: bv64)
    ensures r < 16777216
  {
    var a := PruneValue(Mix(v, Times64(v)));
    var b := PruneValue(Mix(a, Div32(a)));
    PruneValue(Mix(b, Times2048(b)))
  }

  /** The value after n steps. */
  function EvolveN(v: bv64, n: nat): (r: bv64)
    ensures n > 0 ==> r < 16777216
  {
    if n == 0 then v else Evolve(EvolveN(v, n - 1))
  }

  /** SecretNumber::secret_price: the last decimal digit. */
  function PriceOf(v: bv64): (r: int)
    ensures 0 <= r < 10
  {
    (v as int) % 10
  }

  /** The change after step i + 1: the new price and its difference from
      the price after step i. */
  function ChangeAt(v: bv64, i: nat): (r: Change)
    ensures 0 <= r.0 <= 9 && -9 <= r.1 <= 9
  {
    (PriceOf(EvolveN(v, i + 1)), PriceOf(EvolveN(v, i + 1)) - PriceOf(EvolveN(v, i)))
  }

  /** The changes price_changes collects over num steps. */
  function Changes(v: bv64, num: nat): (r: seq<Change>)
    ensures |r| == num
  {
    if num == 0 then [] else Changes(v, num - 1) + [ChangeAt(v, num - 1)]
  }

  /** The i-th change is the one after step i + 1, whatever the length. */
  lemma {:induction false} ChangesIndex(v: bv64, num: nat, i: nat)
    requires i < num
    ensures Changes(v, num)[i] == ChangeAt(v, i)
  {
    if i < num - 1 {
      ChangesIndex(v, num - 1, i);
    }
  }

  lemma {:induction false} ChangesPrefix(v: bv64, num: nat, k: nat)
    requires k <= num
    ensures Changes(v, num)[..k] == Changes(v, k)
  {
    if k < num {
      ChangesPrefix(v, num - 1, k);
      assert Changes(v, num)[..k] == Changes(v, num - 1)[..k];
    } else {
      assert Changes(v, num)[..k] == Changes(v, num);
    }
  }

  /** The changes added up. */
  function SumChanges(c: seq<Change>): int
  {
    if c == [] then 0 else SumChanges(c[..|c| - 1]) + c[|c| - 1].1
  }

  /** The changes telescope: the first k of them add up to the price after
      k steps minus the starting price. */
  lemma {:induction false} ChangesTelescope(v: bv64, k: nat)
    ensures SumChanges(Changes(v, k)) == PriceOf(EvolveN(v, k)) - PriceOf(v)
  {
    if k > 0 {
      ChangesTelescope(v, k - 1);
    }
  }

  /** The four changes starting at i. */
  function WindowAt(c: seq<Change>, i: nat): Window
    requires i + 3 < |c|
  {
    (c[i].1, c[i + 1].1, c[i + 2].1, c[i + 3].1)
  }

  /** The scores sequence_scores keeps after the windows 0..k-1: a window
      seen before is skipped, a new one scores the price at its end. */
  function FirstScores(c: seq<Change>, k: nat): map<Window, int>
    requires k + 3 <= |c|
  {
    if k == 0 then map[]
    else
      var m := FirstScores(c, k - 1);
      var w := WindowAt(c, k - 1);
      if w in m then m else m[w := c[k + 2].0]
  }

  /** w occurs among the windows 0..k-1. */
  predicate Occurs(c: seq<Change>, w: Window, k: nat)
    requires k + 3 <= |c|
  {
    exists i :: 0 <= i < k && WindowAt(c, i) == w
  }

  /** i is where w first occurs. */
  predicate FirstAt(c: seq<Change>, w: Window, i: nat)
    requires i + 3 < |c|
  {
    WindowAt(c, i) == w && forall j :: 0 <= j < i ==> WindowAt(c, j) != w
  }

  /** The kept windows are exactly those that occur, and each scores the
      price at the end of its first occurrence. */
  lemma {:induction false} FirstScoresMeaning(c: seq<Change>, k: nat, w: Window)
    requires k + 3 <= |c|
    ensures w in FirstScores(c, k) <==> Occurs(c, w, k)
    ensures w in FirstScores(c, k) ==>
      exists i :: 0 <= i < k && FirstAt(c, w, i) && FirstScores(c, k)[w] == c[i + 3].0
  {
    if k > 0 {
      FirstScoresMeaning(c, k - 1, w);
      var m := FirstScores(c, k - 1);
      if w == WindowAt(c, k - 1) && w !in m {
        assert FirstAt(c, w, k - 1);
      }
      if Occurs(c, w, k) && !Occurs(c, w, k - 1) {
        assert w == WindowAt(c, k - 1);
      }
    }
  }

  /** Every kept score is a price. */
  lemma {:induction false} FirstScoresPrices(v: bv64, num: nat, k: nat)
    requires k + 3 <= num
    ensures forall w | w in FirstScores(Changes(v, num), k) :: 0 <= FirstScores(Changes(v, num), k)[w] <= 9
  {
    if k > 0 {
      FirstScoresPrices(v, num, k - 1);
      ChangesIndex(v, num, k + 2);
    }
  }

  /** The score of a window for one map, 0 when it is absent. */
  function Get(m: map<Window, int>, w: Window): int
  {
    if w in m then m[w] else 0
  }

  /** The bananas a window earns over all buyers: Input::best_sequence's
      total for it. */
  function Bananas(numbers: seq<bv64>, num: nat, w: Window): int
  {
    if numbers == [] || num < 3 then 0
    else Bananas(numbers[..|numbers| - 1], num, w) + Get(FirstScores(Changes(numbers[|numbers| - 1], num), num - 3), w)
  }

  lemma {:induction false} BananasNonNegative(numbers: seq<bv64>, num: nat, w: Window)
    ensures Bananas(numbers, num, w) >= 0
  {
    if numbers != [] && num >= 3 {
      BananasNonNegative(numbers[..|numbers| - 1], num, w);
      FirstScoresPrices(numbers[|numbers| - 1], num, num - 3);
    }
  }

  /** The SecretNumber struct. */
  class SecretNumber {
    var value: bv64

    /** SecretNumber::new. */
    constructor(value: bv64)
      ensures this.value == value
    {
      this.value := value;
    }

    method Prune()
      modifies this
      ensures value == PruneValue(old(value))
    {
      value := value % 16777216;
    }

    method Step()
      modifies this
      ensures value == Evolve(old(value))
    {
      value := Mix(value, Times64(value));
      Prune();
      value := Mix(value, Div32(value));
      Prune();
      value := Mix(value, Times2048(value));
      Prune();
    }

    /** SecretNumber::nth: n steps. */
    method Nth(n: nat)
      modifies this
      ensures value == EvolveN(old(value), n)
    {
      for i := 0 to n
        invariant value == EvolveN(old(value), i)
      {
        Step();
      }
    }

    function SecretPrice(): (r: int)
      reads this
      ensures 0 <= r < 10
    {
      PriceOf(value)
    }

    /** One round of the loop of price_changes: the price, a step, and the
        new price with its difference from the old one. */
    method NextChange(ghost start: bv64, ghost i: nat) returns (change: Change)
      requires value == EvolveN(start, i)
      modifies this
      ensures value == EvolveN(start, i + 1)
      ensures change == ChangeAt(start, i)
    {
      var lastPrice := SecretPrice();
      Step();
      var currentPrice := SecretPrice();
      change := (currentPrice, currentPrice - lastPrice);
    }

    /** SecretNumber::price_changes, stepping a copy of the number. */
    method PriceChanges(num: nat) returns (changes: seq<Change>)
      ensures changes == Changes(value, num)
    {
      var current := new SecretNumber(value);
      changes := [];
      for i := 0 to num
        invariant current.value == EvolveN(value, i)
        invariant changes == Changes(value, i)
      {
        var change := current.NextChange(value, i);
        changes := changes + [change];
      }
    }

    /** SecretNumber::sequence_scores. With fewer than three changes the
        bound changes.len() - 3 underflows and panics, which is None. */
    method SequenceScores(num: nat) returns (r: Option<map<Window, int>>)
      ensures num < 3 <==> r.None?
      ensures num >= 3 ==> r == Some(FirstScores(Changes(value, num), num - 3))
    {
      var changes := PriceChanges(num);
      if |changes| < 3 {
        return None;
      }
      var scores := map[];
      for i := 0 to |changes| - 3
        invariant scores == FirstScores(changes, i)
      {
        var sequence := (changes[i].1, changes[i + 1].1, changes[i + 2].1, changes[i + 3].1);
        var score := changes[i + 3].0;
        if sequence in scores {
          continue;
        }
        scores := scores[sequence := score];
      }
      return Some(scores);
    }
  }

  /** The entry loop of best_sequence: every score of s added to the
      running total of its window, a missing window starting at 0. */
  method AddScores(scores: map<Window, int>, s: map<Window, int>) returns (r: map<Window, int>)
    ensures forall w :: w in r <==> w in scores || w in s
    ensures forall w :: Get(r, w) == Get(scores, w) + Get(s, w)
  {
    r := scores;
    var todo := s.Keys;
    while todo != {}
      invariant todo <= s.Keys
      invariant forall w :: w in r <==> w in scores || (w in s && w !in todo)
      invariant forall w | w in todo :: Get(r, w) == Get(scores, w)
      invariant forall w | w !in todo :: Get(r, w) == Get(scores, w) + Get(s, w)
      decreases |todo|
    {
      var sequence :| sequence in todo;
      ghost var before := r;
      r := r[sequence := Get(r, sequence) + s[sequence]];
      todo := todo - {sequence};
      forall w
        ensures Get(r, w) == Get(scores, w) + (if w in todo then 0 else Get(s, w))
      {
        if w != sequence {
          assert Get(r, w) == Get(before, w);
        }
      }
    }
  }

  /** The max of the values, None when there is none (unwrap panics). */
  method MaxValue(m: map<Window, int>) returns (r: Option<int>)
    ensures r.None? <==> m == map[]
    ensures r.Some? ==> r.value in m.Values && forall w | w in m :: m[w] <= r.value
  {
    if m == map[] {
      return None;
    }
    var first :| first in m;
    var best := m[first];
    var todo := m.Keys - {first};
    while todo != {}
      invariant todo <= m.Keys
      invariant best in m.Values
      invariant forall w | w in m && w !in todo :: m[w] <= best
      decreases |todo|
    {
      var w :| w in todo;
      if m[w] > best {
        best := m[w];
      }
      todo := todo - {w};
    }
    return Some(best);
  }

  /** Input::best_sequence: the most bananas any window of four changes
      earns over all buyers. It panics, None here, when there are no
      buyers or no window (num at most 3). */
  method BestSequence(numbers: seq<bv64>, num: nat) returns (r: Option<int>)
    ensures r.None? <==> (numbers == [] || num <= 3)
    ensures r.Some? ==> r.value >= 0
    ensures r.Some? ==> forall w :: Bananas(numbers, num, w) <= r.value
    ensures r.Some? ==> exists w :: Bananas(numbers, num, w) == r.value
  {
    var scores: map<Window, int> := map[];
    for j := 0 to |numbers|
      invariant num >= 3 ==> forall w :: Get(scores, w) == Bananas(numbers[..j], num, w)
      invariant num <= 3 || j == 0 ==> scores == map[]
      invariant num > 3 && j > 0 ==> scores != map[]
    {
      var number := new SecretNumber(numbers[j]);
      var s := number.SequenceScores(num);
      if s.None? {
        return None;
      }
      if num == 3 {
        assert s.value == map[];
      } else {
        FirstScoresMeaning(Changes(numbers[j], num), num - 3, WindowAt(Changes(numbers[j], num), 0));
        assert s.value != map[];
      }
      var before := scores;
      scores := AddScores(scores, s.value);
      assert numbers[..j + 1][..j] == numbers[..j];
    }
    assert numbers[..|numbers|] == numbers;
    r := MaxValue(scores);
    if r.Some? {
      var m := r.value;
      var w0 :| w0 in scores && scores[w0] == m;
      assert Bananas(numbers, num, w0) == m;
      BananasNonNegative(numbers, num, w0);
      forall w
        ensures Bananas(numbers, num, w) <= m
      {
        if w !in scores {
          assert Get(scores, w) == 0;
        }
      }
    }
  }

  /** A secret as a number. */
  function AsNumber(v: bv64): (r: int)
    ensures 0 <= r < 0x1_0000_0000_0000_0000
  {
    v as int
  }

  /** The final secret numbers, added up. */
  function SumFinal(numbers: seq<bv64>, n: nat): int
  {
    if numbers == [] then 0 else SumFinal(numbers[..|numbers| - 1], n) + AsNumber(EvolveN(numbers[|numbers| - 1], n))
  }

  /** part_one: every buyer's secret after 2000 steps, added up. */
  method PartOne(numbers: seq<bv64>) returns (r: int)
    ensures r == SumFinal(numbers, 2000)
    ensures r >= 0
  {
    r := 0;
    for j := 0 to |numbers|
      invariant r == SumFinal(numbers[..j], 2000)
      invariant r >= 0
    {
      var number := new SecretNumber(numbers[j]);
      number.Nth(2000);
      assert numbers[..j + 1][..j] == numbers[..j];
      r := r + AsNumber(number.value);
    }
    assert numbers[..|numbers|] == numbers;
  }

  /** part_two: the best window's bananas over 2000 changes per buyer. */
  method PartTwo(numbers: seq<bv64>) returns (r: Option<int>)
    ensures r.None? <==> numbers == []
    ensures r.Some? ==> r.value >= 0 && forall w :: Bananas(numbers, 2000, w) <= r.value
    ensures r.Some? ==> exists w :: Bananas(numbers, 2000, w) == r.value
  {
    r := BestSequence(numbers, 2000);
  }

  /** One step more of a known secret. */
  lemma EvolveNext(v: bv64, n: nat, a: bv64, b: bv64)
    requires EvolveN(v, n) == a && Evolve(a) == b
    ensures EvolveN(v, n + 1) == b
  {
  }

  /** The first ten secrets of 123 in the puzzle's walk-through. */
  lemma EvolveExample(v: bv64)
    requires v == 123
    ensures EvolveN(v, 1) == 15887950
    ensures EvolveN(v, 2) == 16495136
    ensures EvolveN(v, 3) == 527345
    ensures EvolveN(v, 4) == 704524
    ensures EvolveN(v, 5) == 1553684
    ensures EvolveN(v, 10) == 5908254
  {
    EvolveNext(v, 0, 123, 15887950);
    EvolveNext(v, 1, 15887950, 16495136);
    EvolveNext(v, 2, 16495136, 527345);
    EvolveNext(v, 3, 527345, 704524);
    EvolveNext(v, 4, 704524, 1553684);
    EvolveNext(v, 5, 1553684, 12683156);
    EvolveNext(v, 6, 12683156, 11100544);
    EvolveNext(v, 7, 11100544, 12249484);
    EvolveNext(v, 8, 12249484, 7753432);
    EvolveNext(v, 9, 7753432, 5908254);
  }

  /** Their prices: 3, 0, 6, 5, 4. */
  lemma PriceExample()
    ensures PriceOf(123) == 3 && PriceOf(15887950) == 0 && PriceOf(16495136) == 6
    ensures PriceOf(527345) == 5 && PriceOf(704524) == 4
  {
  }

  /** The change after step i of secrets known at steps i and i + 1. */
  lemma ChangeOf(v: bv64, i: nat, a: bv64, b: bv64)
    requires EvolveN(v, i) == a && EvolveN(v, i + 1) == b
    ensures ChangeAt(v, i) == (PriceOf(b), PriceOf(b) - PriceOf(a))
  {
  }

  /** So the first four changes are -3, 6, -1, -1. */
  lemma ChangesExample(v: bv64)
    requires v == 123
    ensures Changes(v, 4) == [(0, -3), (6, 6), (5, -1), (4, -1)]
  {
    EvolveExample(v);
    PriceExample();
    ChangeOf(v, 0, 123, 15887950);
    ChangeOf(v, 1, 15887950, 16495136);
    ChangeOf(v, 2, 16495136, 527345);
    ChangeOf(v, 3, 527345, 704524);
    assert Changes(v, 2) == [ChangeAt(v, 0), ChangeAt(v, 1)];
    assert Changes(v, 4) == Changes(v, 2) + [ChangeAt(v, 2), ChangeAt(v, 3)];
  }
}
