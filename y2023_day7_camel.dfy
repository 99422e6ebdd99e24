/** Camel cards of 2023 day 7: hands of five cards are ranked by their
    type and then card by card, and each hand wins its bid times its rank.
    In part two 'J' is a joker: it counts towards the largest group of
    cards and is the weakest card. */
module CamelCards {
  import opened Prelude

  /** The hand types, weakest first. */
  datatype HandType = HighCard | OnePair | TwoPairs | ThreeOfAKind | FullHouse | FourOfAKind | FiveOfAKind

  /** The explicit discriminants, by which derived Ord compares the types. */
  function Discriminant(t: HandType): (r: nat)
    ensures 1 <= r <= 7
  {
    match t
    case HighCard => 1
    case OnePair => 2
    case TwoPairs => 3
    case ThreeOfAKind => 4
    case FullHouse => 5
    case FourOfAKind => 6
    case FiveOfAKind => 7
  }

  /** Different types have different discriminants. */
  lemma DiscriminantInjective(a: HandType, b: HandType)
    ensures Discriminant(a) == Discriminant(b) <==> a == b
  {
  }

  /** The phantom type parameter of Hand and CamelCards. */
  datatype Part = PartOne | PartTwo

  datatype Hand = Hand(cards: seq<char>, bid: nat)

  /** Hand::from: split at the first space; the bid is a u32 and the cards
      must be exactly five characters, or the conversion panics. */
  function ParseHand(line: string): (r: Option<Hand>)
    ensures r.Some? ==> |r.value.cards| == 5 && r.value.bid < 0x1_0000_0000
    ensures r.Some? ==> |line| > 5 && line[5] == ' ' && r.value.cards == line[..5]
  {
    var space := IndexOf(line, ' ');
    if space == |line| then None
    else
      match ParseUnsigned(line[space + 1..], 0x1_0000_0000)
      case None => None
      case Some(bid) => if space == 5 then Some(Hand(line[..5], bid)) else None
  }

  /** CamelCards::from: a hand per line; one bad line panics. */
  function ParseHands(lines: seq<string>): (r: Option<seq<Hand>>)
    ensures r.Some? ==> |r.value| == |lines|
    ensures r.Some? ==> forall i :: 0 <= i < |r.value| ==> |r.value[i].cards| == 5
  {
    if lines == [] then Some([])
    else
      match ParseHands(lines[..|lines| - 1])
      case None => None
      case Some(hands) =>
        match ParseHand(lines[|lines| - 1])
        case None => None
        case Some(h) => Some(hands + [h])
  }

  // ---------------------------------------------------------------------
  // Counting the cards

  predicate NoDuplicates(s: seq<char>)
  {
    forall i, j :: 0 <= i < j < |s| ==> s[i] != s[j]
  }

  /** The different cards of a hand, in order of first appearance. */
  function Distinct(cards: seq<char>): (r: seq<char>)
    ensures forall c :: c in r <==> c in cards
    ensures NoDuplicates(r)
    ensures |r| <= |cards|
    ensures r == [] <==> cards == []
  {
    if cards == [] then []
    else
      var rest := Distinct(cards[..|cards| - 1]);
      var c := cards[|cards| - 1];
      if c in rest then rest
      else
        assert forall i :: 0 <= i < |rest| ==> (rest + [c])[i] == rest[i];
        rest + [c]
  }

  /** The cards other than c, in order. */
  function Without(cards: seq<char>, c: char): (r: seq<char>)
    ensures |r| <= |cards|
  {
    if cards == [] then []
    else
      var rest := Without(cards[..|cards| - 1], c);
      var d := cards[|cards| - 1];
      if d == c then rest else rest + [d]
  }

  /** Taking out c leaves every other card as often as it was, and no c. */
  lemma {:induction false} WithoutCounts(cards: seq<char>, c: char)
    ensures multiset(Without(cards, c))[c] == 0
    ensures forall d :: d != c ==> multiset(Without(cards, c))[d] == multiset(cards)[d]
  {
    if cards != [] {
      var n := |cards| - 1;
      WithoutCounts(cards[..n], c);
      assert cards == cards[..n] + [cards[n]];
    }
  }

  /** The number of cards the listed cards account for. */
  function SumCounts(ds: seq<char>, ms: multiset<char>): nat
  {
    if ds == [] then 0 else SumCounts(ds[..|ds| - 1], ms) + ms[ds[|ds| - 1]]
  }

  /** The largest count among the listed cards, 0 when there are none. */
  function MaxCount(ds: seq<char>, ms: multiset<char>): nat
  {
    if ds == [] then 0
    else
      var rest := MaxCount(ds[..|ds| - 1], ms);
      var last := ms[ds[|ds| - 1]];
      if rest >= last then rest else last
  }

  /** MaxCount is the largest count: no listed card has more, and some
      listed card has exactly that many. */
  lemma {:induction false} MaxCountIs(ds: seq<char>, ms: multiset<char>)
    ensures forall i :: 0 <= i < |ds| ==> ms[ds[i]] <= MaxCount(ds, ms)
    ensures ds != [] ==> exists i :: 0 <= i < |ds| && ms[ds[i]] == MaxCount(ds, ms)
    ensures ds == [] ==> MaxCount(ds, ms) == 0
  {
    if ds != [] {
      var n := |ds| - 1;
      MaxCountIs(ds[..n], ms);
      assert forall i :: 0 <= i < n ==> ds[..n][i] == ds[i];
      if MaxCount(ds, ms) == ms[ds[n]] {
        assert 0 <= n < |ds| && ms[ds[n]] == MaxCount(ds, ms);
      } else {
        var i :| 0 <= i < n && ms[ds[..n][i]] == MaxCount(ds[..n], ms);
        assert ms[ds[i]] == MaxCount(ds, ms);
      }
    }
  }

  /** One more card adds one to the count of the listed cards exactly when
      it is listed. */
  lemma {:induction false} SumCountsAdd(ds: seq<char>, ms: multiset<char>, c: char)
    requires NoDuplicates(ds)
    ensures SumCounts(ds, ms + multiset{c}) == SumCounts(ds, ms) + (if c in ds then 1 else 0)
  {
    if ds != [] {
      var n := |ds| - 1;
      assert NoDuplicates(ds[..n]);
      SumCountsAdd(ds[..n], ms, c);
      assert c in ds <==> c in ds[..n] || c == ds[n] by {
        assert ds == ds[..n] + [ds[n]];
      }
      assert c in ds[..n] ==> c != ds[n];
    }
  }

  /** The counts of the different cards of a hand add up to its size: for
      a hand of five, the suits counts sum to 5. */
  lemma {:induction false} CountsSum(cards: seq<char>)
    ensures SumCounts(Distinct(cards), multiset(cards)) == |cards|
  {
    if cards != [] {
      var n := |cards| - 1;
      var c := cards[n];
      CountsSum(cards[..n]);
      assert cards == cards[..n] + [c];
      var ds := Distinct(cards[..n]);
      SumCountsAdd(ds, multiset(cards[..n]), c);
      if c !in ds {
        assert (ds + [c])[..|ds|] == ds;
        assert multiset(cards[..n])[c] == 0;
      }
    }
  }

  /** Listed cards that each occur account for at least their largest
      count plus one for every other card. */
  lemma {:induction false} SumCountsLower(ds: seq<char>, ms: multiset<char>)
    requires forall i :: 0 <= i < |ds| ==> ms[ds[i]] >= 1
    ensures ds != [] ==> SumCounts(ds, ms) >= MaxCount(ds, ms) + |ds| - 1
    ensures SumCounts(ds, ms) >= |ds|
  {
    if ds != [] {
      var n := |ds| - 1;
      assert forall i :: 0 <= i < n ==> ds[..n][i] == ds[i];
      SumCountsLower(ds[..n], ms);
    }
  }

  /** Listed cards account for at most their number times the largest count. */
  lemma {:induction false} SumCountsUpper(ds: seq<char>, ms: multiset<char>)
    ensures SumCounts(ds, ms) <= |ds| * MaxCount(ds, ms)
  {
    if ds != [] {
      var n := |ds| - 1;
      SumCountsUpper(ds[..n], ms);
      MulMonotone(n, MaxCount(ds[..n], ms), MaxCount(ds, ms));
      assert |ds| * MaxCount(ds, ms) == n * MaxCount(ds, ms) + MaxCount(ds, ms);
    }
  }

  lemma MulMonotone(k: nat, a: nat, b: nat)
    requires a <= b
    ensures k * a <= k * b
  {
  }

  /** suit_count: the number of different cards and the largest count; in
      part two the jokers are taken out first and then added to the
      largest count. */
  function SuitCount(cards: seq<char>, part: Part): (nat, nat)
  {
    if part == PartOne then
      var ds := Distinct(cards);
      (|ds|, MaxCount(ds, multiset(cards)))
    else
      var others := Without(cards, 'J');
      var ds := Distinct(others);
      (|ds|, MaxCount(ds, multiset(others)) + multiset(cards)['J'])
  }

  /** strength: the table from (different cards, largest count) to a hand
      type; any other pair panics. */
  function Strength(count: (nat, nat)): Option<HandType>
  {
    match count
    case (0, 5) => Some(FiveOfAKind)
    case (1, 5) => Some(FiveOfAKind)
    case (2, 4) => Some(FourOfAKind)
    case (2, 3) => Some(FullHouse)
    case (3, 3) => Some(ThreeOfAKind)
    case (3, 2) => Some(TwoPairs)
    case (4, 2) => Some(OnePair)
    case (5, 1) => Some(HighCard)
    case _ => None
  }

  /** The pairs a group of s cards in k kinds, the largest of m, can give,
      with j jokers added, are all in the table. */
  lemma TableCovers(k: nat, m: nat, s: nat, j: nat)
    requires s + j == 5 && s <= k * m
    requires k == 0 ==> s == 0 && m == 0
    requires k >= 1 ==> m >= 1 && s >= m + k - 1
    ensures Strength((k, m + j)).Some?
  {
    if k == 1 {
      assert s <= m;
    } else if k == 2 {
      assert s <= 2 * m;
    } else if k == 3 {
      assert s <= 3 * m;
    } else if k == 4 {
      assert s <= 4 * m;
    }
  }

  /** The facts about the counts of a group of cards that decide its type. */
  lemma CountFacts(cards: seq<char>, k: nat, m: nat)
    requires k == |Distinct(cards)| && m == MaxCount(Distinct(cards), multiset(cards))
    ensures |cards| <= k * m
    ensures k == 0 ==> |cards| == 0 && m == 0
    ensures k >= 1 ==> m >= 1 && |cards| >= m + k - 1
  {
    var ds := Distinct(cards);
    var ms := multiset(cards);
    CountsSum(cards);
    SumCountsUpper(ds, ms);
    assert forall i :: 0 <= i < |ds| ==> ms[ds[i]] >= 1 by {
      forall i | 0 <= i < |ds|
        ensures ms[ds[i]] >= 1
      {
        assert ds[i] in cards;
      }
    }
    SumCountsLower(ds, ms);
    MaxCountIs(ds, ms);
    if ds != [] {
      assert ms[ds[0]] >= 1;
    }
  }

  /** A hand of five cards never makes strength panic, in either part. */
  lemma StrengthTotal(cards: seq<char>, part: Part)
    requires |cards| == 5
    ensures Strength(SuitCount(cards, part)).Some?
  {
    if part == PartOne {
      StrengthTotalOne(cards);
    } else {
      StrengthTotalTwo(cards);
    }
  }

  lemma StrengthTotalOne(cards: seq<char>)
    requires |cards| == 5
    ensures Strength(SuitCount(cards, PartOne)).Some?
  {
    var k := |Distinct(cards)|;
    var m := MaxCount(Distinct(cards), multiset(cards));
    assert SuitCount(cards, PartOne) == (k, m + 0);
    CountFacts(cards, k, m);
    TableCovers(k, m, 5, 0);
  }

  lemma StrengthTotalTwo(cards: seq<char>)
    requires |cards| == 5
    ensures Strength(SuitCount(cards, PartTwo)).Some?
  {
    var others := Without(cards, 'J');
    var k := |Distinct(others)|;
    var m := MaxCount(Distinct(others), multiset(others));
    var j := multiset(cards)['J'];
    assert SuitCount(cards, PartTwo) == (k, m + j);
    CountFacts(others, k, m);
    JokersSplit(cards, 'J');
    TableCovers(k, m, |others|, j);
  }

  /** Taking out the jokers leaves the other cards: together with the
      jokers they are the hand. */
  lemma {:induction false} JokersSplit(cards: seq<char>, c: char)
    ensures |Without(cards, c)| + multiset(cards)[c] == |cards|
  {
    if cards != [] {
      var n := |cards| - 1;
      JokersSplit(cards[..n], c);
      assert cards == cards[..n] + [cards[n]];
    }
  }

  /** The type of a hand of five cards. */
  function HandStrength(cards: seq<char>, part: Part): HandType
    requires |cards| == 5
  {
    StrengthTotal(cards, part);
    Strength(SuitCount(cards, part)).value
  }

  /** Without a joker the two parts agree on the type. */
  lemma NoJokerSameType(cards: seq<char>)
    requires |cards| == 5 && 'J' !in cards
    ensures HandStrength(cards, PartTwo) == HandStrength(cards, PartOne)
  {
    assert Without(cards, 'J') == cards by {
      WithoutAbsent(cards, 'J');
    }
    assert multiset(cards)['J'] == 0;
  }

  lemma {:induction false} WithoutAbsent(cards: seq<char>, c: char)
    requires c !in cards
    ensures Without(cards, c) == cards
  {
    if cards != [] {
      var n := |cards| - 1;
      WithoutAbsent(cards[..n], c);
      assert cards == cards[..n] + [cards[n]];
    }
  }

  /** Five jokers are five of a kind in part two: no other card is left
      and the jokers make a group of five. */
  lemma AllJokers(cards: seq<char>)
    requires |cards| == 5 && forall i :: 0 <= i < 5 ==> cards[i] == 'J'
    ensures SuitCount(cards, PartTwo) == (0, 5)
    ensures HandStrength(cards, PartTwo) == FiveOfAKind
  {
    assert cards == ['J', 'J', 'J', 'J', 'J'];
    assert multiset(cards)['J'] == 5;
    JokersSplit(cards, 'J');
  }

  // ---------------------------------------------------------------------
  // The suits HashMap and suit_count, as the source computes them

  /** suits: the map from each card of the hand to how often it occurs. */
  method Suits(cards: seq<char>) returns (suits: map<char, nat>)
    ensures forall c :: c in suits <==> c in cards
    ensures forall c :: c in suits ==> suits[c] == multiset(cards)[c]
  {
    suits := map[];
    for i := 0 to |cards|
      invariant forall c :: c in suits <==> c in cards[..i]
      invariant forall c :: c in suits ==> suits[c] == multiset(cards[..i])[c]
    {
      var card := cards[i];
      assert cards[..i + 1] == cards[..i] + [card];
      if card in suits {
        suits := suits[card := suits[card] + 1];
      } else {
        suits := suits[card := 1];
      }
    }
    assert cards[..|cards|] == cards;
  }

  /** suits.values().max(), or 0 for an empty map as unwrap_or(0) gives. */
  method MaxValue(suits: map<char, nat>) returns (max: nat)
    ensures forall c :: c in suits ==> suits[c] <= max
    ensures suits != map[] ==> exists c :: c in suits && suits[c] == max
    ensures suits == map[] ==> max == 0
  {
    max := 0;
    var keys := suits.Keys;
    while keys != {}
      invariant keys <= suits.Keys
      invariant forall c :: c in suits && c !in keys ==> suits[c] <= max
      invariant max == 0 || exists c :: c in suits && c !in keys && suits[c] == max
      invariant max == 0 && suits != map[] ==> keys != {} || exists c :: c in suits && suits[c] == 0
      decreases |keys|
    {
      var k :| k in keys;
      if suits[k] > max {
        max := suits[k];
      }
      keys := keys - {k};
    }
    if max == 0 && suits != map[] {
      var c :| c in suits && suits[c] == 0;
    }
  }

  /** The count of the listed different cards read from a map that holds
      their counts: its size and its largest value. */
  lemma MapCounts(suits: map<char, nat>, ds: seq<char>, ms: multiset<char>, max: nat)
    requires NoDuplicates(ds)
    requires forall c :: c in suits <==> c in ds
    requires forall c :: c in suits ==> suits[c] == ms[c]
    requires forall c :: c in suits ==> suits[c] <= max
    requires suits != map[] ==> exists c :: c in suits && suits[c] == max
    requires suits == map[] ==> max == 0
    ensures |suits| == |ds|
    ensures max == MaxCount(ds, ms)
  {
    if suits != map[] {
      var c :| c in suits && suits[c] == max;
      assert c in suits.Keys && ms[c] == max;
    }
    SetCounts(suits.Keys, ds, ms, max);
  }

  /** The same for the set of the different cards and their counts. */
  lemma SetCounts(kinds: set<char>, ds: seq<char>, ms: multiset<char>, max: nat)
    requires NoDuplicates(ds)
    requires forall c :: c in kinds <==> c in ds
    requires forall c :: c in kinds ==> ms[c] <= max
    requires kinds != {} ==> exists c :: c in kinds && ms[c] == max
    requires kinds == {} ==> max == 0
    ensures |kinds| == |ds|
    ensures max == MaxCount(ds, ms)
  {
    DistinctSize(ds, kinds);
    MaxCountIs(ds, ms);
    if kinds != {} {
      var c :| c in kinds && ms[c] == max;
      var i :| 0 <= i < |ds| && ds[i] == c;
      assert max <= MaxCount(ds, ms);
      var j :| 0 <= j < |ds| && ms[ds[j]] == MaxCount(ds, ms);
      assert ds[j] in kinds;
    }
  }

  /** A list without duplicates has as many elements as the set of them. */
  lemma {:induction false} DistinctSize(ds: seq<char>, s: set<char>)
    requires NoDuplicates(ds) && forall c :: c in s <==> c in ds
    ensures |s| == |ds|
  {
    if ds != [] {
      var n := |ds| - 1;
      assert NoDuplicates(ds[..n]);
      assert ds == ds[..n] + [ds[n]];
      assert ds[n] !in ds[..n];
      DistinctSize(ds[..n], s - {ds[n]});
    }
  }

  /** suit_count of part one, computed through the suits map. */
  method SuitCountPartOne(cards: seq<char>) returns (count: (nat, nat))
    ensures count == SuitCount(cards, PartOne)
  {
    var suits := Suits(cards);
    var maxSuit := MaxValue(suits);
    MapCounts(suits, Distinct(cards), multiset(cards), maxSuit);
    count := (|suits|, maxSuit);
  }

  /** suit_count of part two: the jokers are looked up and removed from
      the suits map, then added to its largest value. */
  method SuitCountPartTwo(cards: seq<char>) returns (count: (nat, nat))
    ensures count == SuitCount(cards, PartTwo)
  {
    var suits := Suits(cards);
    var jokers := if 'J' in suits then suits['J'] else 0;
    assert jokers == multiset(cards)['J'];
    suits := suits - {'J'};
    var maxSuit := MaxValue(suits);
    ghost var others := Without(cards, 'J');
    WithoutCounts(cards, 'J');
    assert forall c :: c in suits <==> c in Distinct(others) by {
      forall c
        ensures c in suits <==> c in others
      {
        assert c in others <==> multiset(others)[c] > 0;
      }
    }
    MapCounts(suits, Distinct(others), multiset(others), maxSuit);
    SuitCountTwo(cards, others);
    var distinct: nat := |suits|;
    var max: nat := maxSuit + jokers;
    assert distinct == |Distinct(others)|;
    assert max == MaxCount(Distinct(others), multiset(others)) + multiset(cards)['J'];
    count := (distinct, max);
    assert count.0 == SuitCount(cards, PartTwo).0;
    assert count.1 == SuitCount(cards, PartTwo).1;
  }

  lemma SuitCountTwo(cards: seq<char>, others: seq<char>)
    requires others == Without(cards, 'J')
    ensures SuitCount(cards, PartTwo) == (|Distinct(others)|, MaxCount(Distinct(others), multiset(others)) + multiset(cards)['J'])
  {
  }

  /** strength, computed through suit_count. */
  method StrengthOf(cards: seq<char>, part: Part) returns (t: HandType)
    requires |cards| == 5
    ensures t == HandStrength(cards, part)
  {
    var count;
    if part == PartOne {
      count := SuitCountPartOne(cards);
    } else {
      count := SuitCountPartTwo(cards);
    }
    StrengthTotal(cards, part);
    t := Strength(count).value;
  }

  // ---------------------------------------------------------------------
  // Card values

  /** The value of one card: T, J, Q, K and A are 10 to 14 except that J
      is 1 in part two; a digit is its value; anything else panics. */
  function CardValue(c: char, part: Part): (r: Option<nat>)
    ensures r.Some? ==> r.value <= 14
  {
    if c == 'T' then Some(10)
    else if c == 'J' then Some(if part == PartOne then 11 else 1)
    else if c == 'Q' then Some(12)
    else if c == 'K' then Some(13)
    else if c == 'A' then Some(14)
    else if '0' <= c <= '9' then Some(c as int - '0' as int)
    else None
  }

  /** The values of all the cards, or None when one of them panics. */
  function Values(cards: seq<char>, part: Part): (r: Option<seq<nat>>)
    ensures r.Some? <==> forall i :: 0 <= i < |cards| ==> CardValue(cards[i], part).Some?
    ensures r.Some? ==> |r.value| == |cards| && forall i :: 0 <= i < |cards| ==> Some(r.value[i]) == CardValue(cards[i], part)
  {
    if forall i :: 0 <= i < |cards| ==> CardValue(cards[i], part).Some? then
      Some(seq(|cards|, i requires 0 <= i < |cards| => CardValue(cards[i], part).value))
    else None
  }

  /** 2^(20 - 4 idx): where the value of card idx goes. */
  function Weight(idx: nat): (r: nat)
    requires idx <= 5
    ensures r >= 1
    decreases 5 - idx
  {
    if idx == 5 then 1 else 16 * Weight(idx + 1)
  }

  /** The shift by 20 - 4 idx is a product with that weight. */
  lemma WeightIsShift(idx: nat)
    requires idx <= 5
    ensures Weight(idx) == Pow(2, 4 * (5 - idx))
    decreases 5 - idx
  {
    if idx < 5 {
      WeightIsShift(idx + 1);
      PowAdd(2, 4, 4 * (5 - idx - 1));
      assert 4 * (5 - idx) == 4 + 4 * (5 - idx - 1);
    }
  }

  /** The sum from card idx on of val << (20 - idx * 4). */
  function Shifted(vs: seq<nat>, idx: nat): nat
    requires |vs| <= 5 && idx <= |vs|
    decreases |vs| - idx
  {
    if idx == |vs| then 0 else vs[idx] * Weight(idx) + Shifted(vs, idx + 1)
  }

  /** card_values: the value of the hand as one number. */
  function CardValues(cards: seq<char>, part: Part): nat
    requires |cards| == 5 && Values(cards, part).Some?
  {
    Shifted(Values(cards, part).value, 0)
  }

  predicate Nibbles(vs: seq<nat>)
  {
    forall i :: 0 <= i < |vs| ==> vs[i] < 16
  }

  /** The values from idx on take fewer bits than the weight above them. */
  lemma {:induction false} ShiftedBound(vs: seq<nat>, idx: nat)
    requires |vs| == 5 && idx <= 5 && Nibbles(vs)
    ensures idx < 5 ==> Shifted(vs, idx) < 16 * Weight(idx)
    ensures idx == 5 ==> Shifted(vs, idx) == 0
    decreases 5 - idx
  {
    if idx < 5 {
      ShiftedBound(vs, idx + 1);
      MulMonotone(Weight(idx), vs[idx], 15);
      assert vs[idx] * Weight(idx) <= 15 * Weight(idx);
      if idx + 1 < 5 {
        assert Weight(idx) == 16 * Weight(idx + 1);
      }
    }
  }

  /** Cards compared one by one from the first, as Ord on the arrays. */
  predicate LexLess(a: seq<nat>, b: seq<nat>)
    requires |a| == |b|
    decreases |a|
  {
    |a| > 0 && (a[0] < b[0] || (a[0] == b[0] && LexLess(a[1..], b[1..])))
  }

  /** One value of fewer bits than the weight below it decides the
      comparison when it differs. */
  lemma WeightedLess(x: nat, y: nat, w: nat, p: nat, q: nat)
    requires p < w && q < w && w > 0
    ensures x * w + p < y * w + q <==> x < y || (x == y && p < q)
  {
    if x < y {
      assert (x + 1) * w <= y * w by { MulMonotone(w, x + 1, y); }
    } else if x > y {
      assert (y + 1) * w <= x * w by { MulMonotone(w, y + 1, x); }
    }
  }

  /** The packed number orders hands exactly as comparing their cards one
      by one does: the four bits a card gets are enough. */
  lemma {:induction false} ShiftedOrder(a: seq<nat>, b: seq<nat>, idx: nat)
    requires |a| == 5 && |b| == 5 && idx <= 5 && Nibbles(a) && Nibbles(b)
    ensures Shifted(a, idx) < Shifted(b, idx) <==> LexLess(a[idx..], b[idx..])
    decreases 5 - idx
  {
    if idx < 5 {
      ShiftedOrder(a, b, idx + 1);
      ShiftedBound(a, idx + 1);
      ShiftedBound(b, idx + 1);
      assert a[idx..][1..] == a[idx + 1..] && b[idx..][1..] == b[idx + 1..];
      var w := Weight(idx);
      if idx + 1 < 5 {
        assert w == 16 * Weight(idx + 1);
      }
      WeightedLess(a[idx], b[idx], w, Shifted(a, idx + 1), Shifted(b, idx + 1));
    }
  }

  /** The comparison lemma for whole hands. */
  lemma CardValuesOrder(c: seq<char>, d: seq<char>, part: Part)
    requires |c| == 5 && |d| == 5 && Values(c, part).Some? && Values(d, part).Some?
    ensures CardValues(c, part) < CardValues(d, part) <==> LexLess(Values(c, part).value, Values(d, part).value)
  {
    var a := Values(c, part).value;
    var b := Values(d, part).value;
    assert Nibbles(a) && Nibbles(b) by {
      forall i | 0 <= i < 5
        ensures a[i] < 16 && b[i] < 16
      {
        assert Some(a[i]) == CardValue(c[i], part) && Some(b[i]) == CardValue(d[i], part);
      }
    }
    ShiftedOrder(a, b, 0);
    assert a[0..] == a && b[0..] == b;
  }

  // ---------------------------------------------------------------------
  // Solving

  /** A hand whose key can be computed: five cards that all have a value. */
  predicate Valid(h: Hand, part: Part)
  {
    |h.cards| == 5 && Values(h.cards, part).Some?
  }

  /** The cards of every hand have values, so that sorting does not panic. */
  predicate AllValid(hands: seq<Hand>, part: Part)
  {
    forall i :: 0 <= i < |hands| ==> Valid(hands[i], part)
  }

  /** The sort key: the type, then the card values. */
  function Key(h: Hand, part: Part): (nat, nat)
    requires Valid(h, part)
  {
    (Discriminant(HandStrength(h.cards, part)), CardValues(h.cards, part))
  }

  /** The key as the sort sees it; a hand without one never reaches it. */
  function KeyOf(h: Hand, part: Part): (nat, nat)
  {
    if Valid(h, part) then Key(h, part) else (0, 0)
  }

  /** Tuples compare by their first component, then by their second. */
  predicate KeyLe(a: (nat, nat), b: (nat, nat))
  {
    a.0 < b.0 || (a.0 == b.0 && a.1 <= b.1)
  }

  predicate SortedBy(hands: seq<Hand>, key: Hand -> (nat, nat))
  {
    forall i, j :: 0 <= i < j < |hands| ==> KeyLe(key(hands[i]), key(hands[j]))
  }

  /** The hand inserted after the last hand whose key is not larger. */
  function Insert(h: Hand, sorted: seq<Hand>, key: Hand -> (nat, nat)): (r: seq<Hand>)
    ensures multiset(r) == multiset(sorted) + multiset{h}
    ensures |r| == |sorted| + 1
  {
    if sorted == [] then [h]
    else
      var n := |sorted| - 1;
      assert sorted == sorted[..n] + [sorted[n]];
      if KeyLe(key(sorted[n]), key(h)) then sorted + [h]
      else Insert(h, sorted[..n], key) + [sorted[n]]
  }

  /** sort_by_cached_key: a stable sort by the key, hand by hand. */
  function SortBy(hands: seq<Hand>, key: Hand -> (nat, nat)): (r: seq<Hand>)
    ensures multiset(r) == multiset(hands)
    ensures |r| == |hands|
  {
    if hands == [] then []
    else
      var n := |hands| - 1;
      assert hands == hands[..n] + [hands[n]];
      Insert(hands[n], SortBy(hands[..n], key), key)
  }

  /** No hand has a key above k. */
  predicate AllAtMost(hands: seq<Hand>, key: Hand -> (nat, nat), k: (nat, nat))
  {
    forall i :: 0 <= i < |hands| ==> KeyLe(key(hands[i]), k)
  }

  /** Inserting a hand whose key is at most k keeps every key at most k. */
  lemma {:induction false} InsertAtMost(h: Hand, sorted: seq<Hand>, key: Hand -> (nat, nat), k: (nat, nat))
    requires AllAtMost(sorted, key, k) && KeyLe(key(h), k)
    ensures AllAtMost(Insert(h, sorted, key), key, k)
  {
    if sorted != [] {
      var n := |sorted| - 1;
      if !KeyLe(key(sorted[n]), key(h)) {
        assert AllAtMost(sorted[..n], key, k);
        InsertAtMost(h, sorted[..n], key, k);
      }
    }
  }

  /** A hand whose key is at least all the others may go last. */
  lemma AppendSorted(hands: seq<Hand>, h: Hand, key: Hand -> (nat, nat))
    requires SortedBy(hands, key) && AllAtMost(hands, key, key(h))
    ensures SortedBy(hands + [h], key)
  {
    var r := hands + [h];
    forall i, j | 0 <= i < j < |r|
      ensures KeyLe(key(r[i]), key(r[j]))
    {
      if j < |hands| {
        assert r[i] == hands[i] && r[j] == hands[j];
      }
    }
  }

  /** Inserting into a sorted sequence keeps it sorted. */
  lemma {:induction false} InsertSorted(h: Hand, sorted: seq<Hand>, key: Hand -> (nat, nat))
    requires SortedBy(sorted, key)
    ensures SortedBy(Insert(h, sorted, key), key)
  {
    if sorted != [] {
      var n := |sorted| - 1;
      var last := sorted[n];
      if KeyLe(key(last), key(h)) {
        assert AllAtMost(sorted, key, key(h));
        AppendSorted(sorted, h, key);
      } else {
        var front := sorted[..n];
        assert SortedBy(front, key);
        assert AllAtMost(front, key, key(last));
        InsertSorted(h, front, key);
        InsertAtMost(h, front, key, key(last));
        AppendSorted(Insert(h, front, key), last, key);
      }
    }
  }

  /** The sort puts the hands in order of their keys. */
  lemma {:induction false} SortSorted(hands: seq<Hand>, key: Hand -> (nat, nat))
    ensures SortedBy(SortBy(hands, key), key)
  {
    if hands != [] {
      var n := |hands| - 1;
      SortSorted(hands[..n], key);
      InsertSorted(hands[n], SortBy(hands[..n], key), key);
    }
  }

  /** Hands already in order stay where they are. */
  lemma {:induction false} SortKeepsSorted(hands: seq<Hand>, key: Hand -> (nat, nat))
    requires SortedBy(hands, key)
    ensures SortBy(hands, key) == hands
  {
    if hands != [] {
      var n := |hands| - 1;
      assert SortedBy(hands[..n], key);
      SortKeepsSorted(hands[..n], key);
      assert hands[..n] + [hands[n]] == hands;
      if n > 0 {
        assert KeyLe(key(hands[..n][n - 1]), key(hands[n]));
      }
    }
  }

  /** Sorting twice is sorting once. */
  lemma SortIdempotent(hands: seq<Hand>, key: Hand -> (nat, nat))
    ensures SortBy(SortBy(hands, key), key) == SortBy(hands, key)
  {
    SortSorted(hands, key);
    SortKeepsSorted(SortBy(hands, key), key);
  }

  /** The sum of (rank + 1) * bid over the ranked hands. */
  function Winnings(ranked: seq<Hand>): nat
  {
    if ranked == [] then 0 else Winnings(ranked[..|ranked| - 1]) + |ranked| * ranked[|ranked| - 1].bid
  }

  function Bids(hands: seq<Hand>): nat
  {
    if hands == [] then 0 else Bids(hands[..|hands| - 1]) + hands[|hands| - 1].bid
  }

  /** Every hand wins at least its bid. */
  lemma {:induction false} WinningsAtLeastBids(ranked: seq<Hand>)
    ensures Winnings(ranked) >= Bids(ranked)
  {
    if ranked != [] {
      WinningsAtLeastBids(ranked[..|ranked| - 1]);
    }
  }

  /** The hands in the order solve ranks them. */
  function Ranked(hands: seq<Hand>, part: Part): (r: seq<Hand>)
    ensures multiset(r) == multiset(hands)
  {
    SortBy(hands, h => KeyOf(h, part))
  }

  /** solve: the total winnings, or None when a card has no value. */
  function Total(hands: seq<Hand>, part: Part): Option<nat>
  {
    if AllValid(hands, part) then Some(Winnings(Ranked(hands, part))) else None
  }

  /** The ranked hands are the same hands, weakest first by type and then
      by their cards. */
  lemma RankedByKey(hands: seq<Hand>, part: Part)
    requires AllValid(hands, part)
    ensures AllValid(Ranked(hands, part), part)
    ensures forall i, j :: 0 <= i < j < |hands| ==>
      KeyLe(Key(Ranked(hands, part)[i], part), Key(Ranked(hands, part)[j], part))
  {
    var key := h => KeyOf(h, part);
    var r := Ranked(hands, part);
    SortSorted(hands, key);
    forall i | 0 <= i < |r|
      ensures Valid(r[i], part)
    {
      assert r[i] in multiset(hands);
    }
  }

  /** The game: the hands, sorted in place by solve. */
  class Game {
    var hands: seq<Hand>
    const part: Part

    constructor(hands: seq<Hand>, part: Part)
      ensures this.hands == hands && this.part == part
    {
      this.hands := hands;
      this.part := part;
    }

    /** solve: sort the hands by key and add up their winnings. */
    method Solve() returns (r: Option<nat>)
      modifies this
      ensures r == Total(old(hands), part)
      ensures r.Some? ==> hands == Ranked(old(hands), part)
      ensures r.None? ==> hands == old(hands)
    {
      if !AllValid(hands, part) {
        return None;
      }
      hands := Ranked(hands, part);
      r := Some(Winnings(hands));
    }
  }

  /** The answer of a part: the winnings, or None when the input panics. */
  function Answer(input: string, part: Part): Option<nat>
  {
    match ParseHands(Lines(input))
    case None => None
    case Some(hands) => Total(hands, part)
  }

  method PartOneAnswer(input: string) returns (r: Option<nat>)
    ensures r == Answer(input, PartOne)
  {
    var hands := ParseHands(Lines(input));
    if hands.None? {
      return None;
    }
    var game := new Game(hands.value, PartOne);
    r := game.Solve();
  }

  method PartTwoAnswer(input: string) returns (r: Option<nat>)
    ensures r == Answer(input, PartTwo)
  {
    var hands := ParseHands(Lines(input));
    if hands.None? {
      return None;
    }
    var game := new Game(hands.value, PartTwo);
    r := game.Solve();
  }

  // ---------------------------------------------------------------------
  // The hands of the tests

  /** test_compare: in part two JKKK2 is weaker than QQQQ2, the joker
      being the weakest card. */
  lemma CompareExample(weaker: seq<char>, stronger: seq<char>)
    requires weaker == "JKKK2" && stronger == "QQQQ2"
    ensures Values(weaker, PartTwo) == Some([1, 13, 13, 13, 2])
    ensures Values(stronger, PartTwo) == Some([12, 12, 12, 12, 2])
    ensures CardValues(weaker, PartTwo) < CardValues(stronger, PartTwo)
  {
    var a := Values(weaker, PartTwo).value;
    var b := Values(stronger, PartTwo).value;
    assert Some(a[0]) == CardValue(weaker[0], PartTwo) && Some(a[1]) == CardValue(weaker[1], PartTwo);
    assert Some(a[2]) == CardValue(weaker[2], PartTwo) && Some(a[3]) == CardValue(weaker[3], PartTwo);
    assert Some(a[4]) == CardValue(weaker[4], PartTwo);
    assert Some(b[0]) == CardValue(stronger[0], PartTwo) && Some(b[1]) == CardValue(stronger[1], PartTwo);
    assert Some(b[2]) == CardValue(stronger[2], PartTwo) && Some(b[3]) == CardValue(stronger[3], PartTwo);
    assert Some(b[4]) == CardValue(stronger[4], PartTwo);
    assert a == [1, 13, 13, 13, 2];
    assert b == [12, 12, 12, 12, 2];
    CardValuesOrder(weaker, stronger, PartTwo);
  }

  /** The part-two type read off the kinds of card besides the jokers and
      the largest count among them. */
  lemma StrengthTwoFrom(cards: seq<char>, kinds: seq<char>, m: nat, jokers: nat)
    requires |cards| == 5 && NoDuplicates(kinds) && jokers == multiset(cards)['J']
    requires forall c :: c in kinds <==> c in multiset(cards) && c != 'J'
    requires forall c :: c in kinds ==> multiset(cards)[c] <= m
    requires kinds != [] ==> exists c :: c in kinds && multiset(cards)[c] == m
    requires kinds == [] ==> m == 0
    ensures Strength((|kinds|, m + jokers)) == Some(HandStrength(cards, PartTwo))
  {
    var kindSet := set c | c in kinds;
    DistinctSize(kinds, kindSet);
    if kinds != [] {
      var c :| c in kinds && multiset(cards)[c] == m;
      assert c in kindSet;
    }
    KindsCount(cards, kindSet, m);
    StrengthTotal(cards, PartTwo);
  }

  lemma KindsCount(cards: seq<char>, kinds: set<char>, m: nat)
    requires forall c :: c in kinds <==> c in cards && c != 'J'
    requires forall c :: c in kinds ==> multiset(cards)[c] <= m
    requires kinds != {} ==> exists c :: c in kinds && multiset(cards)[c] == m
    requires kinds == {} ==> m == 0
    ensures SuitCount(cards, PartTwo).0 == |kinds| && SuitCount(cards, PartTwo).1 == m + multiset(cards)['J']
  {
    var others := Without(cards, 'J');
    KindsOfOthers(cards, others, kinds, m);
    SuitCountTwo(cards, others);
  }

  /** The kinds of card besides the jokers are those the jokers leave. */
  lemma KindsOfOthers(cards: seq<char>, others: seq<char>, kinds: set<char>, m: nat)
    requires others == Without(cards, 'J')
    requires forall c :: c in kinds <==> c in cards && c != 'J'
    requires forall c :: c in kinds ==> multiset(cards)[c] <= m
    requires kinds != {} ==> exists c :: c in kinds && multiset(cards)[c] == m
    requires kinds == {} ==> m == 0
    ensures |kinds| == |Distinct(others)| && m == MaxCount(Distinct(others), multiset(others))
  {
    WithoutCounts(cards, 'J');
    var ms := multiset(others);
    assert forall c :: c in kinds <==> c in Distinct(others) by {
      forall c
        ensures c in kinds <==> c in others
      {
        assert c in others <==> ms[c] > 0;
      }
    }
    if kinds != {} {
      var c :| c in kinds && multiset(cards)[c] == m;
      assert ms[c] == m;
    }
    SetCounts(kinds, Distinct(others), ms, m);
  }

  lemma HandAAAAA(cards: seq<char>)
    requires |cards| == 5 && multiset(cards) == multiset{'A', 'A', 'A', 'A', 'A'}
    ensures HandStrength(cards, PartTwo) == FiveOfAKind
  {
    StrengthTwoFrom(cards, ['A'], 5, 0);
  }

  lemma HandJJJJJ(cards: seq<char>)
    requires |cards| == 5 && multiset(cards) == multiset{'J', 'J', 'J', 'J', 'J'}
    ensures HandStrength(cards, PartTwo) == FiveOfAKind
  {
    StrengthTwoFrom(cards, [], 0, 5);
  }

  lemma HandAAAAJ(cards: seq<char>)
    requires |cards| == 5 && multiset(cards) == multiset{'A', 'A', 'A', 'A', 'J'}
    ensures HandStrength(cards, PartTwo) == FiveOfAKind
  {
    StrengthTwoFrom(cards, ['A'], 4, 1);
  }

  lemma HandAAAJJ(cards: seq<char>)
    requires |cards| == 5 && multiset(cards) == multiset{'A', 'A', 'A', 'J', 'J'}
    ensures HandStrength(cards, PartTwo) == FiveOfAKind
  {
    StrengthTwoFrom(cards, ['A'], 3, 2);
  }

  lemma HandAAJJJ(cards: seq<char>)
    requires |cards| == 5 && multiset(cards) == multiset{'A', 'A', 'J', 'J', 'J'}
    ensures HandStrength(cards, PartTwo) == FiveOfAKind
  {
    StrengthTwoFrom(cards, ['A'], 2, 3);
  }

  lemma HandAJJJJ(cards: seq<char>)
    requires |cards| == 5 && multiset(cards) == multiset{'A', 'J', 'J', 'J', 'J'}
    ensures HandStrength(cards, PartTwo) == FiveOfAKind
  {
    StrengthTwoFrom(cards, ['A'], 1, 4);
  }

  /** test_5_of_a_kind_hands: the hands AAAAA, JJJJJ, AAAAJ, AAAJJ, AAJJJ and AJJJJ, each in any order, are five of a kind in part two. */
  lemma FiveOfAKindExample(cards: seq<char>)
    requires |cards| == 5
    ensures multiset(cards) == multiset{'A', 'A', 'A', 'A', 'A'} ==> HandStrength(cards, PartTwo) == FiveOfAKind
    ensures multiset(cards) == multiset{'J', 'J', 'J', 'J', 'J'} ==> HandStrength(cards, PartTwo) == FiveOfAKind
    ensures multiset(cards) == multiset{'A', 'A', 'A', 'A', 'J'} ==> HandStrength(cards, PartTwo) == FiveOfAKind
    ensures multiset(cards) == multiset{'A', 'A', 'A', 'J', 'J'} ==> HandStrength(cards, PartTwo) == FiveOfAKind
    ensures multiset(cards) == multiset{'A', 'A', 'J', 'J', 'J'} ==> HandStrength(cards, PartTwo) == FiveOfAKind
    ensures multiset(cards) == multiset{'A', 'J', 'J', 'J', 'J'} ==> HandStrength(cards, PartTwo) == FiveOfAKind
  {
    if multiset(cards) == multiset{'A', 'A', 'A', 'A', 'A'} {
      HandAAAAA(cards);
    }
    if multiset(cards) == multiset{'J', 'J', 'J', 'J', 'J'} {
      HandJJJJJ(cards);
    }
    if multiset(cards) == multiset{'A', 'A', 'A', 'A', 'J'} {
      HandAAAAJ(cards);
    }
    if multiset(cards) == multiset{'A', 'A', 'A', 'J', 'J'} {
      HandAAAJJ(cards);
    }
    if multiset(cards) == multiset{'A', 'A', 'J', 'J', 'J'} {
      HandAAJJJ(cards);
    }
    if multiset(cards) == multiset{'A', 'J', 'J', 'J', 'J'} {
      HandAJJJJ(cards);
    }
  }

  lemma HandAAAA1(cards: seq<char>)
    requires |cards| == 5 && multiset(cards) == multiset{'A', 'A', 'A', 'A', '1'}
    ensures HandStrength(cards, PartTwo) == FourOfAKind
  {
    StrengthTwoFrom(cards, ['A', '1'], 4, 0);
  }

  lemma HandAAAJ1(cards: seq<char>)
    requires |cards| == 5 && multiset(cards) == multiset{'A', 'A', 'A', 'J', '1'}
    ensures HandStrength(cards, PartTwo) == FourOfAKind
  {
    StrengthTwoFrom(cards, ['A', '1'], 3, 1);
  }

  lemma HandAAJJ1(cards: seq<char>)
    requires |cards| == 5 && multiset(cards) == multiset{'A', 'A', 'J', 'J', '1'}
    ensures HandStrength(cards, PartTwo) == FourOfAKind
  {
    StrengthTwoFrom(cards, ['A', '1'], 2, 2);
  }

  lemma HandAJJJ1(cards: seq<char>)
    requires |cards| == 5 && multiset(cards) == multiset{'A', 'J', 'J', 'J', '1'}
    ensures HandStrength(cards, PartTwo) == FourOfAKind
  {
    StrengthTwoFrom(cards, ['A', '1'], 1, 3);
  }

  /** test_4_of_a_kind_hands: the hands AAAA1, AAAJ1, AAJJ1 and AJJJ1, each in any order, are four of a kind in part two. */
  lemma FourOfAKindExample(cards: seq<char>)
    requires |cards| == 5
    ensures multiset(cards) == multiset{'A', 'A', 'A', 'A', '1'} ==> HandStrength(cards, PartTwo) == FourOfAKind
    ensures multiset(cards) == multiset{'A', 'A', 'A', 'J', '1'} ==> HandStrength(cards, PartTwo) == FourOfAKind
    ensures multiset(cards) == multiset{'A', 'A', 'J', 'J', '1'} ==> HandStrength(cards, PartTwo) == FourOfAKind
    ensures multiset(cards) == multiset{'A', 'J', 'J', 'J', '1'} ==> HandStrength(cards, PartTwo) == FourOfAKind
  {
    if multiset(cards) == multiset{'A', 'A', 'A', 'A', '1'} {
      HandAAAA1(cards);
    }
    if multiset(cards) == multiset{'A', 'A', 'A', 'J', '1'} {
      HandAAAJ1(cards);
    }
    if multiset(cards) == multiset{'A', 'A', 'J', 'J', '1'} {
      HandAAJJ1(cards);
    }
    if multiset(cards) == multiset{'A', 'J', 'J', 'J', '1'} {
      HandAJJJ1(cards);
    }
  }

  lemma HandAAAKK(cards: seq<char>)
    requires |cards| == 5 && multiset(cards) == multiset{'A', 'A', 'A', 'K', 'K'}
    ensures HandStrength(cards, PartTwo) == FullHouse
  {
    StrengthTwoFrom(cards, ['A', 'K'], 3, 0);
  }

  lemma HandAAKKJ(cards: seq<char>)
    requires |cards| == 5 && multiset(cards) == multiset{'A', 'A', 'K', 'K', 'J'}
    ensures HandStrength(cards, PartTwo) == FullHouse
  {
    StrengthTwoFrom(cards, ['A', 'K'], 2, 1);
  }

  /** test_full_house_hands: the hands AAAKK and AAKKJ, each in any order, are full houses in part two. */
  lemma FullHouseExample(cards: seq<char>)
    requires |cards| == 5
    ensures multiset(cards) == multiset{'A', 'A', 'A', 'K', 'K'} ==> HandStrength(cards, PartTwo) == FullHouse
    ensures multiset(cards) == multiset{'A', 'A', 'K', 'K', 'J'} ==> HandStrength(cards, PartTwo) == FullHouse
  {
    if multiset(cards) == multiset{'A', 'A', 'A', 'K', 'K'} {
      HandAAAKK(cards);
    }
    if multiset(cards) == multiset{'A', 'A', 'K', 'K', 'J'} {
      HandAAKKJ(cards);
    }
  }

  lemma HandAAAKQ(cards: seq<char>)
    requires |cards| == 5 && multiset(cards) == multiset{'A', 'A', 'A', 'K', 'Q'}
    ensures HandStrength(cards, PartTwo) == ThreeOfAKind
  {
    StrengthTwoFrom(cards, ['A', 'K', 'Q'], 3, 0);
  }

  lemma HandAAJ12(cards: seq<char>)
    requires |cards| == 5 && multiset(cards) == multiset{'A', 'A', 'J', '1', '2'}
    ensures HandStrength(cards, PartTwo) == ThreeOfAKind
  {
    StrengthTwoFrom(cards, ['A', '1', '2'], 2, 1);
  }

  lemma HandAJJ12(cards: seq<char>)
    requires |cards| == 5 && multiset(cards) == multiset{'A', 'J', 'J', '1', '2'}
    ensures HandStrength(cards, PartTwo) == ThreeOfAKind
  {
    StrengthTwoFrom(cards, ['A', '1', '2'], 1, 2);
  }

  /** test_3_of_a_kind_hands: the hands AAAKQ, AAJ12 and AJJ12, each in any order, are three of a kind in part two. */
  lemma ThreeOfAKindExample(cards: seq<char>)
    requires |cards| == 5
    ensures multiset(cards) == multiset{'A', 'A', 'A', 'K', 'Q'} ==> HandStrength(cards, PartTwo) == ThreeOfAKind
    ensures multiset(cards) == multiset{'A', 'A', 'J', '1', '2'} ==> HandStrength(cards, PartTwo) == ThreeOfAKind
    ensures multiset(cards) == multiset{'A', 'J', 'J', '1', '2'} ==> HandStrength(cards, PartTwo) == ThreeOfAKind
  {
    if multiset(cards) == multiset{'A', 'A', 'A', 'K', 'Q'} {
      HandAAAKQ(cards);
    }
    if multiset(cards) == multiset{'A', 'A', 'J', '1', '2'} {
      HandAAJ12(cards);
    }
    if multiset(cards) == multiset{'A', 'J', 'J', '1', '2'} {
      HandAJJ12(cards);
    }
  }

  /** test_2_pairs_hands: the cards AAKK1, in any order, are two pairs in part two. */
  lemma TwoPairsExample(cards: seq<char>)
    requires |cards| == 5 && multiset(cards) == multiset{'A', 'A', 'K', 'K', '1'}
    ensures HandStrength(cards, PartTwo) == TwoPairs
  {
    StrengthTwoFrom(cards, ['A', 'K', '1'], 2, 0);
  }

  lemma HandAA123(cards: seq<char>)
    requires |cards| == 5 && multiset(cards) == multiset{'A', 'A', '1', '2', '3'}
    ensures HandStrength(cards, PartTwo) == OnePair
  {
    StrengthTwoFrom(cards, ['A', '1', '2', '3'], 2, 0);
  }

  lemma HandAJ123(cards: seq<char>)
    requires |cards| == 5 && multiset(cards) == multiset{'A', 'J', '1', '2', '3'}
    ensures HandStrength(cards, PartTwo) == OnePair
  {
    StrengthTwoFrom(cards, ['A', '1', '2', '3'], 1, 1);
  }

  /** test_pair_hands: the hands AA123 and AJ123, each in any order, are one pair in part two. */
  lemma OnePairExample(cards: seq<char>)
    requires |cards| == 5
    ensures multiset(cards) == multiset{'A', 'A', '1', '2', '3'} ==> HandStrength(cards, PartTwo) == OnePair
    ensures multiset(cards) == multiset{'A', 'J', '1', '2', '3'} ==> HandStrength(cards, PartTwo) == OnePair
  {
    if multiset(cards) == multiset{'A', 'A', '1', '2', '3'} {
      HandAA123(cards);
    }
    if multiset(cards) == multiset{'A', 'J', '1', '2', '3'} {
      HandAJ123(cards);
    }
  }

  /** test_high_card_hands: the cards A1234, in any order, are a high card in part two. */
  lemma HighCardExample(cards: seq<char>)
    requires |cards| == 5 && multiset(cards) == multiset{'A', '1', '2', '3', '4'}
    ensures HandStrength(cards, PartTwo) == HighCard
  {
    StrengthTwoFrom(cards, ['A', '1', '2', '3', '4'], 1, 0);
  }
}
