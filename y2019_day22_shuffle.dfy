/** 2019 day 22: a deck of factory-ordered cards is shuffled by a list of
    techniques. Part one follows one card through the list; part two
    composes the inverse of the whole list into one affine map modulo a
    prime deck size and applies it many times with fast exponentiation. */
module SlamShuffle {
  import opened Prelude
  import opened Modular

  /** The range of Rust's i128. */
  const I128Min: int := -0x8000_0000_0000_0000_0000_0000_0000_0000
  const I128Max: int := 0x7fff_ffff_ffff_ffff_ffff_ffff_ffff_ffff

  /** The three shuffle techniques. */
  datatype Shuffle = Deal | Cut(count: int) | DealIncrement(count: int)

  /** What reading one line gives: a technique, the error for a line that
      names none of them, or a panic of the unwrap on a bad number. */
  datatype Parsed = Parsed(shuffle: Shuffle) | NotKnown | Panic

  // ---------------------------------------------------------------------
  // Reading the techniques
  // ---------------------------------------------------------------------

  /** pat occurs in s starting at index i. */
  predicate IsAt(s: string, pat: string, i: nat)
  {
    i + |pat| <= |s| && s[i..i + |pat|] == pat
  }

  /** str::contains. */
  predicate Contains(s: string, pat: string)
  {
    exists i: nat | i <= |s| :: IsAt(s, pat, i)
  }

  /** chars().skip(k).collect(). */
  function Skip(s: string, k: nat): (r: string)
    ensures |s| <= k ==> r == []
    ensures k < |s| ==> r == s[k..]
  {
    if |s| <= k then [] else s[k..]
  }

  /** str::parse::<i128>: a signed decimal number inside the i128 range. */
  function ParseI128(s: string): (r: Option<int>)
    ensures r.Some? <==> ParseInt(s).Some? && I128Min <= ParseInt(s).value <= I128Max
    ensures r.Some? ==> r == ParseInt(s)
  {
    match ParseInt(s)
    case Some(v) => if I128Min <= v <= I128Max then Some(v) else None
    case None => None
  }

  const CutText := "cut "
  const IncrementText := "deal with increment "
  const DealText := "deal into new stack"

  /** Shuffle::from_str: the first of the three phrases the line contains
      decides the technique; the count is everything after the first 4 or
      20 characters, and a count that does not parse makes unwrap panic. */
  function FromStr(line: string): (r: Parsed)
    ensures r.NotKnown? <==> !Contains(line, CutText) && !Contains(line, IncrementText) && !Contains(line, DealText)
    ensures r.Panic? ==>
      || (Contains(line, CutText) && ParseI128(Skip(line, 4)).None?)
      || (Contains(line, IncrementText) && ParseI128(Skip(line, 20)).None?)
  {
    if Contains(line, CutText) then
      match ParseI128(Skip(line, 4))
      case Some(n) => Parsed(Cut(n))
      case None => Panic
    else if Contains(line, IncrementText) then
      match ParseI128(Skip(line, 20))
      case Some(n) => Parsed(DealIncrement(n))
      case None => Panic
    else if Contains(line, DealText) then Parsed(Deal)
    else NotKnown
  }

  /** A string whose characters are all absent from the first character
      of pat cannot contain pat. */
  lemma NotContainsFirst(s: string, pat: string)
    requires pat != [] && pat[0] !in s
    ensures !Contains(s, pat)
  {
    forall i: nat | i <= |s|
      ensures !IsAt(s, pat, i)
    {
      if i + |pat| <= |s| {
        assert s[i..i + |pat|][0] == s[i] != pat[0];
      }
    }
  }

  /** A counted line names neither "cut " nor the plain deal before its
      number, so the number alone decides what the line means. */
  lemma IncrementHasNoCut(d: string)
    requires 'c' !in d
    ensures !Contains(IncrementText + d, CutText)
  {
    var s := IncrementText + d;
    forall i: nat | i <= |s|
      ensures !IsAt(s, CutText, i)
    {
      if i + 4 <= |s| {
        if i == 12 {
          assert s[i..i + 4][1] == IncrementText[13] == 'r';
        } else if i < 20 {
          assert s[i..i + 4][0] == IncrementText[i] != 'c';
        } else {
          assert s[i..i + 4][0] == d[i - 20];
        }
      }
    }
  }

  /** "deal into new stack" contains neither counted phrase. */
  lemma DealHasNoCount()
    ensures !Contains(DealText, CutText) && !Contains(DealText, IncrementText)
  {
    forall i: nat | i <= |DealText|
      ensures !IsAt(DealText, CutText, i)
    {
      if i + 4 <= |DealText| {
        assert DealText[i..i + 4][0] == DealText[i] != 'c';
      }
    }
  }

  /** A number that parses holds digits and at most a leading sign. */
  lemma ParsedHasNoLetter(d: string, n: int)
    requires ParseI128(d) == Some(n)
    ensures 'c' !in d
  {
    var digits := if d != [] && (d[0] == '-' || d[0] == '+') then d[1..] else d;
    forall k | 0 <= k < |d|
      ensures d[k] != 'c'
    {
      if digits == d {
        assert d[k] == digits[k];
      } else if k > 0 {
        assert d[k] == digits[k - 1];
      }
    }
  }

  /** "cut " followed by an i128 reads as that cut. */
  lemma FromStrCut(d: string, n: int)
    requires ParseI128(d) == Some(n)
    ensures FromStr(CutText + d) == Parsed(Cut(n))
  {
    var s := CutText + d;
    assert IsAt(s, CutText, 0);
    assert Skip(s, 4) == d;
  }

  /** "deal with increment " followed by an i128 reads as that deal. */
  lemma FromStrIncrement(d: string, n: int)
    requires ParseI128(d) == Some(n)
    ensures FromStr(IncrementText + d) == Parsed(DealIncrement(n))
  {
    var s := IncrementText + d;
    ParsedHasNoLetter(d, n);
    IncrementHasNoCut(d);
    assert IsAt(s, IncrementText, 0);
    assert Skip(s, 20) == d;
  }

  /** "deal into new stack" reads as the plain deal. */
  lemma FromStrDeal()
    ensures FromStr(DealText) == Parsed(Deal)
  {
    DealHasNoCount();
    assert IsAt(DealText, DealText, 0);
  }

  /** A line naming no technique is the error, and a phrase that is not at
      the start of its line leaves the wrong characters for the number. */
  lemma FromStrOthers()
    ensures FromStr("shuffle") == NotKnown
    ensures FromStr("cut x") == Panic
    ensures FromStr("a cut 5") == Panic
  {
    NotContainsFirst("shuffle", CutText);
    NotContainsFirst("shuffle", IncrementText);
    NotContainsFirst("shuffle", DealText);
    assert IsAt("cut x", CutText, 0);
    assert ParseInt(Skip("cut x", 4)) == None by {
      assert Skip("cut x", 4) == "x";
    }
    assert IsAt("a cut 5", CutText, 2);
    assert ParseInt(Skip("a cut 5", 4)) == None by {
      assert Skip("a cut 5", 4) == "t 5";
    }
  }

  /** The lines of the example deck in the tests. */
  lemma FromStrExample()
    ensures FromStr("deal into new stack") == Parsed(Deal)
    ensures FromStr("cut -2") == Parsed(Cut(-2))
    ensures FromStr("deal with increment 7") == Parsed(DealIncrement(7))
    ensures FromStr("cut 8") == Parsed(Cut(8))
  {
    FromStrDeal();
    assert ParseI128("-2") == Some(-2) by {
      assert DigitsValue("2") == 2;
    }
    FromStrCut("-2", -2);
    assert CutText + "-2" == "cut -2";
    assert ParseI128("7") == Some(7) by {
      assert DigitsValue("7") == 7;
    }
    FromStrIncrement("7", 7);
    assert IncrementText + "7" == "deal with increment 7";
    assert ParseI128("8") == Some(8) by {
      assert DigitsValue("8") == 8;
    }
    FromStrCut("8", 8);
    assert CutText + "8" == "cut 8";
  }

  // ---------------------------------------------------------------------
  // Part one: following card 2019 in a deck of 10007
  // ---------------------------------------------------------------------

  /** One step of part1's fold, with Rust's truncating remainder. */
  function Part1Step(position: int, command: Shuffle, n: int): int
    requires n > 0
  {
    match command
    case Deal => n - 1 - position
    case Cut(count) => Rem(position - count, n)
    case DealIncrement(count) => Rem(position * count, n)
  }

  /** part1's fold over the commands in order. */
  function Part1Fold(commands: seq<Shuffle>, position: int, n: int): int
    requires n > 0
    decreases |commands|
  {
    if commands == [] then position
    else Part1Fold(commands[1..], Part1Step(position, commands[0], n), n)
  }

  /** part1 as written. */
  function Part1(commands: seq<Shuffle>): int
  {
    Part1Fold(commands, 2019, 10007)
  }

  /** Where the card at position p goes under one technique, as a position
      in 0..n-1. */
  function Track(command: Shuffle, p: int, n: int): (r: int)
    requires n > 0
    ensures 0 <= r < n
  {
    match command
    case Deal => (n - 1 - p) % n
    case Cut(count) => (p - count) % n
    case DealIncrement(count) => (p * count) % n
  }

  /** Where the card at position p goes under the whole list. */
  function TrackAll(commands: seq<Shuffle>, p: int, n: int): (r: int)
    requires n > 0
    ensures 0 <= r < n
    decreases |commands|
  {
    if commands == [] then p % n else TrackAll(commands[1..], Track(commands[0], p, n), n)
  }

  /** part1 with the remainder taken in 0..n-1: the position of card 2019
      after the shuffle. */
  function Part1Corrected(commands: seq<Shuffle>): (r: int)
    ensures 0 <= r < 10007
    ensures r == Part1(commands) % 10007
  {
    Part1Congruent(commands, 2019, 10007);
    TrackAll(commands, 2019, 10007)
  }

  /** Track depends only on the position modulo n. */
  lemma TrackCong(command: Shuffle, p: int, p': int, n: int)
    requires n > 0 && Cong(p, p', n)
    ensures Track(command, p, n) == Track(command, p', n)
  {
    match command
    case Deal =>
      CongSub(n - 1, n - 1, p, p', n);
    case Cut(count) =>
      CongSub(p, p', count, count, n);
    case DealIncrement(count) =>
      CongMulLeft(p, p', count, n);
  }

  lemma {:induction false} TrackAllCong(commands: seq<Shuffle>, p: int, p': int, n: int)
    requires n > 0 && Cong(p, p', n)
    ensures TrackAll(commands, p, n) == TrackAll(commands, p', n)
    decreases |commands|
  {
    if commands != [] {
      TrackCong(commands[0], p, p', n);
    }
  }

  /** Each step of part1 is congruent to the card's new position. */
  lemma StepCong(command: Shuffle, p: int, n: int)
    requires n > 0
    ensures Cong(Part1Step(p, command, n), Track(command, p, n), n)
  {
    match command
    case Deal =>
      CongMod(n - 1 - p, n);
    case Cut(count) =>
      CongRem(p - count, n);
      CongMod(p - count, n);
    case DealIncrement(count) =>
      CongRem(p * count, n);
      CongMod(p * count, n);
  }

  /** part1's fold as written is congruent to the position of the card; it
      differs from it whenever a remainder goes negative or a deal pushes
      it above n - 1. */
  lemma {:induction false} Part1Congruent(commands: seq<Shuffle>, p: int, n: int)
    requires n > 0
    ensures Part1Fold(commands, p, n) % n == TrackAll(commands, p, n)
    decreases |commands|
  {
    if commands == [] {
      CongMod(p, n);
    } else {
      var step := Part1Step(p, commands[0], n);
      Part1Congruent(commands[1..], step, n);
      StepCong(commands[0], p, n);
      CongMod(Track(commands[0], p, n), n);
      TrackAllCong(commands[1..], step, Track(commands[0], p, n), n);
    }
  }

  /** A single cut of more cards than the card's position makes part1
      print a negative number; the card is at 9026. */
  lemma Part1NegativeExample()
    ensures Part1([Cut(3000)]) == -981
    ensures Part1Corrected([Cut(3000)]) == 9026
  {
    assert Part1([Cut(3000)]) == Part1Fold([], Rem(2019 - 3000, 10007), 10007);
    assert Part1Corrected([Cut(3000)]) == TrackAll([], Track(Cut(3000), 2019, 10007), 10007);
  }

  /** The deck itself: cards listed from the top. */
  function DealDeck(deck: seq<int>): (r: seq<int>)
    ensures |r| == |deck|
  {
    seq(|deck|, j requires 0 <= j < |deck| => deck[|deck| - 1 - j])
  }

  function CutDeck(deck: seq<int>, count: int): (r: seq<int>)
    requires deck != []
    ensures |r| == |deck|
  {
    seq(|deck|, j requires 0 <= j < |deck| => deck[(j + count) % |deck|])
  }

  /** Dealing with an increment puts the card at position i at (i *
      count) mod n; the card at j came from j * inverse mod n. */
  function IncrementDeck(deck: seq<int>, inverse: int): (r: seq<int>)
    requires deck != []
    ensures |r| == |deck|
  {
    seq(|deck|, j requires 0 <= j < |deck| => deck[(j * inverse) % |deck|])
  }

  /** A new stack reverses the deck, and the card at p moves to n-1-p. */
  lemma DealMovesCard(deck: seq<int>, p: nat)
    requires p < |deck|
    ensures DealDeck(deck)[Track(Deal, p, |deck|)] == deck[p]
  {
    ModSmall(|deck| - 1 - p, |deck|);
  }

  /** A cut moves the card at p to p - count mod n. */
  lemma CutMovesCard(deck: seq<int>, count: int, p: nat)
    requires p < |deck|
    ensures CutDeck(deck, count)[Track(Cut(count), p, |deck|)] == deck[p]
  {
    var n := |deck|;
    var q := (p - count) % n;
    CongMod(p - count, n);
    CongAdd(q, p - count, count, count, n);
    ModSmall(p, n);
  }

  /** Dealing with an increment moves the card at p to p * count mod n. */
  lemma IncrementMovesCard(deck: seq<int>, count: int, inverse: int, p: nat)
    requires p < |deck| && (count * inverse) % |deck| == 1 % |deck|
    ensures IncrementDeck(deck, inverse)[Track(DealIncrement(count), p, |deck|)] == deck[p]
  {
    var n := |deck|;
    var q := (p * count) % n;
    CongMod(p * count, n);
    CongMulLeft(q, p * count, inverse, n);
    assert p * count * inverse == p * (count * inverse);
    CongMul(p, p, count * inverse, 1, n);
    ModSmall(p, n);
  }

  // ---------------------------------------------------------------------
  // modular_pow
  // ---------------------------------------------------------------------

  /** The i128 square of modulus - 1 does not overflow; the products of two
      remainders then never do. */
  predicate Fits(modulus: int)
  {
    (modulus - 1) * (modulus - 1) <= I128Max
  }

  /** The square-and-multiply loop, one bit of the exponent per step. */
  function PowLoop(result: int, base: int, exponent: int, modulus: int): int
    requires modulus != 0
    decreases exponent
  {
    if exponent <= 0 then result
    else
      PowLoop(if exponent % 2 == 1 then Rem(result * base, modulus) else result,
              Rem(base * base, modulus), exponent / 2, modulus)
  }

  /** modular_pow: 0 for the modulus 1; a panic when the square of modulus
      - 1 overflows or the modulus is 0; otherwise the loop from result 1
      and the remainder of the base. */
  function ModPow(base: int, exponent: int, modulus: int): (r: Option<int>)
    ensures r.Some? <==> modulus == 1 || (modulus != 0 && Fits(modulus))
    ensures modulus == 1 ==> r == Some(0)
  {
    if modulus == 1 then Some(0)
    else if !Fits(modulus) || modulus == 0 then None
    else Some(PowLoop(1, Rem(base, modulus), exponent, modulus))
  }

  /** modular_pow's loop, which keeps the loop's function of the current
      values equal to that of the starting ones. */
  method ModularPow(base: int, exponent: int, modulus: int) returns (r: Option<int>)
    ensures r == ModPow(base, exponent, modulus)
    ensures modulus >= 2 && r.Some? && exponent >= 0 ==>
      r.value % modulus == Pow(base, exponent) % modulus && Abs(r.value) < modulus
  {
    if modulus == 1 {
      return Some(0);
    }
    if !Fits(modulus) || modulus == 0 {
      return None;
    }
    var result := 1;
    var b := Rem(base, modulus);
    var e := exponent;
    while e > 0
      invariant PowLoop(result, b, e, modulus) == PowLoop(1, Rem(base, modulus), exponent, modulus)
      decreases e
    {
      if e % 2 == 1 {
        result := Rem(result * b, modulus);
      }
      e := e / 2;
      b := Rem(b * b, modulus);
    }
    r := Some(result);
    if modulus >= 2 && exponent >= 0 {
      ModPowCorrect(base, exponent, modulus);
    }
  }

  /** Each step keeps result * base^exponent modulo m. */
  lemma {:induction false} PowLoopCorrect(result: int, base: int, exponent: nat, modulus: int)
    requires modulus > 0
    ensures Cong(PowLoop(result, base, exponent, modulus), result * Pow(base, exponent), modulus)
    decreases exponent
  {
    if exponent > 0 {
      var half := exponent / 2;
      var result' := if exponent % 2 == 1 then Rem(result * base, modulus) else result;
      var base' := Rem(base * base, modulus);
      PowLoopCorrect(result', base', half, modulus);
      CongRem(base * base, modulus);
      CongPow(base', base * base, half, modulus);
      PowSquare(base, half);
      if exponent % 2 == 1 {
        CongRem(result * base, modulus);
        CongMul(result', result * base, Pow(base', half), Pow(base, 2 * half), modulus);
        assert exponent == 2 * half + 1;
        assert Pow(base, exponent) == base * Pow(base, 2 * half);
        assert result * base * Pow(base, 2 * half) == result * Pow(base, exponent);
      } else {
        assert exponent == 2 * half;
        CongMul(result, result, Pow(base', half), Pow(base, 2 * half), modulus);
      }
    }
  }

  /** The loop keeps every value below the modulus in magnitude. */
  lemma {:induction false} PowLoopBound(result: int, base: int, exponent: int, modulus: int)
    requires modulus > 0 && Abs(result) < modulus
    ensures Abs(PowLoop(result, base, exponent, modulus)) < modulus
    decreases exponent
  {
    if exponent > 0 {
      var result' := if exponent % 2 == 1 then Rem(result * base, modulus) else result;
      PowLoopBound(result', Rem(base * base, modulus), exponent / 2, modulus);
    }
  }

  /** The products the loop forms stay inside i128 when the modulus fits,
      which is what the assertion before the loop guards. */
  lemma LoopProductsFit(result: int, base: int, modulus: int)
    requires modulus >= 2 && Fits(modulus) && Abs(result) < modulus && Abs(base) < modulus
    ensures I128Min <= result * base <= I128Max
  {
    ProductBound(result, base, modulus - 1);
  }

  /** modular_pow computes base^exponent modulo m, as a number of the sign
      of the base's remainder below m in magnitude. */
  lemma ModPowCorrect(base: int, exponent: nat, modulus: int)
    requires modulus >= 2 && Fits(modulus)
    ensures ModPow(base, exponent, modulus).Some?
    ensures ModPow(base, exponent, modulus).value % modulus == Pow(base, exponent) % modulus
    ensures Abs(ModPow(base, exponent, modulus).value) < modulus
  {
    var b := Rem(base, modulus);
    PowLoopCorrect(1, b, exponent, modulus);
    CongRem(base, modulus);
    CongPow(b, base, exponent, modulus);
    PowLoopBound(1, b, exponent, modulus);
  }

  /** The test of modular_pow. */
  lemma ModPowExample()
    ensures ModPow(4, 13, 497) == Some(445)
  {
    assert Fits(497);
    assert Rem(4, 497) == 4 && Rem(1 * 4, 497) == 4 && Rem(4 * 4, 497) == 16;
    assert PowLoop(1, 4, 13, 497) == PowLoop(4, 16, 6, 497);
    assert Rem(16 * 16, 497) == 256;
    assert PowLoop(4, 16, 6, 497) == PowLoop(4, 256, 3, 497);
    assert Rem(4 * 256, 497) == 30 && Rem(256 * 256, 497) == 429;
    assert PowLoop(4, 256, 3, 497) == PowLoop(30, 429, 1, 497);
    assert Rem(30 * 429, 497) == 445 && Rem(429 * 429, 497) == 151;
    assert PowLoop(30, 429, 1, 497) == PowLoop(445, 151, 0, 497);
  }

  // ---------------------------------------------------------------------
  // Part two: the inverse shuffle as one affine map
  // ---------------------------------------------------------------------

  /** Combine(a, b): the card at position y after the shuffle was at
      position a * y + b before it, modulo the deck size. */
  datatype Combine = Combine(a: int, b: int)

  /** One step of Combine::new, undoing one technique after the ones that
      follow it. */
  function CombineStep(acc: Combine, command: Shuffle, modulo: int): (r: Option<Combine>)
    requires modulo != 0
    ensures r.Some? ==> Abs(r.value.a) < Abs(modulo) && Abs(r.value.b) < Abs(modulo)
  {
    match command
    case Cut(count) => Some(Combine(Rem(acc.a, modulo), Rem(acc.b + count, modulo)))
    case DealIncrement(count) =>
      var inv :- ModPow(count, modulo - 2, modulo);
      Some(Combine(Rem(acc.a * inv, modulo), Rem(acc.b * inv, modulo)))
    case Deal => Some(Combine(Rem(-acc.a, modulo), Rem(-acc.b - 1, modulo)))
  }

  /** Combine::new: the fold over the reversed commands from the identity,
      so the first command is undone last. */
  function NewCombine(commands: seq<Shuffle>, modulo: int): Option<Combine>
    requires modulo != 0
    decreases |commands|
  {
    if commands == [] then Some(Combine(1, 0))
    else
      var rest :- NewCombine(commands[1..], modulo);
      CombineStep(rest, commands[0], modulo)
  }

  /** Every deal with an increment has the inverse modular_pow computes
      for it: count^(m-2) times count is 1 modulo m, which Fermat's little
      theorem gives for a prime m that does not divide the count. */
  predicate InversesHold(commands: seq<Shuffle>, modulo: int)
    requires modulo != 0
    decreases |commands|
  {
    commands == [] ||
    (InversesHold(commands[1..], modulo) &&
     match commands[0]
     case DealIncrement(count) =>
       (match ModPow(count, modulo - 2, modulo)
        case Some(inv) => modulo > 0 && (count * inv) % modulo == 1
        case None => false)
     case _ => true)
  }

  /** Replacing both coefficients by congruent ones keeps the position. */
  lemma AffineCong(a: int, a': int, b: int, b': int, y: int, modulo: int)
    requires modulo > 0 && Cong(a, a', modulo) && Cong(b, b', modulo)
    ensures Cong((a * y + b) % modulo, a' * y + b', modulo)
  {
    CongMulLeft(a, a', y, modulo);
    CongAdd(a * y, a' * y, b, b', modulo);
    CongMod(a * y + b, modulo);
  }

  /** Adding the count to b undoes a cut. */
  lemma CutUndoes(a: int, b: int, count: int, modulo: int, y: int)
    requires modulo > 0
    ensures Track(Cut(count), (Rem(a, modulo) * y + Rem(b + count, modulo)) % modulo, modulo) == (a * y + b) % modulo
  {
    var p := (Rem(a, modulo) * y + Rem(b + count, modulo)) % modulo;
    var z := a * y + b;
    assert Cong(p, z + count, modulo) by {
      CongRem(a, modulo);
      CongRem(b + count, modulo);
      AffineCong(Rem(a, modulo), a, Rem(b + count, modulo), b + count, y, modulo);
    }
    CongSub(p, z + count, count, count, modulo);
  }

  /** Negating the map and subtracting one undoes a new stack. */
  lemma DealUndoes(a: int, b: int, modulo: int, y: int)
    requires modulo > 0
    ensures Track(Deal, (Rem(-a, modulo) * y + Rem(-b - 1, modulo)) % modulo, modulo) == (a * y + b) % modulo
  {
    var p := (Rem(-a, modulo) * y + Rem(-b - 1, modulo)) % modulo;
    var z := a * y + b;
    assert Cong(p, -z - 1, modulo) by {
      CongRem(-a, modulo);
      CongRem(-b - 1, modulo);
      AffineCong(Rem(-a, modulo), -a, Rem(-b - 1, modulo), -b - 1, y, modulo);
      assert -a * y + (-b - 1) == -z - 1;
    }
    assert Track(Deal, p, modulo) == (z + 1 * modulo) % modulo by {
      CongSub(modulo - 1, modulo - 1, p, -z - 1, modulo);
      assert modulo - 1 - (-z - 1) == z + 1 * modulo;
    }
    ModAddMul(z, 1, modulo);
  }

  /** Multiplying the map by the inverse of the count undoes a deal with
      that increment. */
  lemma IncrementUndoes(a: int, b: int, count: int, inv: int, modulo: int, y: int)
    requires modulo >= 2 && (count * inv) % modulo == 1
    ensures Track(DealIncrement(count), (Rem(a * inv, modulo) * y + Rem(b * inv, modulo)) % modulo, modulo)
      == (a * y + b) % modulo
  {
    var p := (Rem(a * inv, modulo) * y + Rem(b * inv, modulo)) % modulo;
    var z := a * y + b;
    assert Cong(p, z * inv, modulo) by {
      CongRem(a * inv, modulo);
      CongRem(b * inv, modulo);
      AffineCong(Rem(a * inv, modulo), a * inv, Rem(b * inv, modulo), b * inv, y, modulo);
      Distribute(a, b, y, inv);
    }
    assert Cong(p * count, z * (count * inv), modulo) by {
      CongMulLeft(p, z * inv, count, modulo);
      Reassociate(z, inv, count);
    }
    ModSmall(1, modulo);
    CongMul(z, z, count * inv, 1, modulo);
  }

  lemma Distribute(a: int, b: int, y: int, inv: int)
    ensures a * inv * y + b * inv == (a * y + b) * inv
  {
  }

  lemma Reassociate(z: int, inv: int, count: int)
    ensures z * inv * count == z * (count * inv)
  {
  }

  /** A step of Combine::new undoes its technique: from the new map's
      position the technique leads to the old map's position. */
  lemma StepUndoes(acc: Combine, command: Shuffle, modulo: int, y: int)
    requires modulo >= 2 && Fits(modulo)
    requires command.DealIncrement? ==>
      ModPow(command.count, modulo - 2, modulo).Some? &&
      (command.count * ModPow(command.count, modulo - 2, modulo).value) % modulo == 1
    ensures CombineStep(acc, command, modulo).Some?
    ensures var next := CombineStep(acc, command, modulo).value;
      Track(command, (next.a * y + next.b) % modulo, modulo) == (acc.a * y + acc.b) % modulo
  {
    match command
    case Cut(count) =>
      CutUndoes(acc.a, acc.b, count, modulo, y);
    case Deal =>
      DealUndoes(acc.a, acc.b, modulo, y);
    case DealIncrement(count) =>
      IncrementUndoes(acc.a, acc.b, count, ModPow(count, modulo - 2, modulo).value, modulo, y);
  }

  /** Combine::new inverts the whole shuffle: the card at position y
      after it was at a * y + b before it. */
  lemma {:induction false} CombineUndoes(commands: seq<Shuffle>, modulo: int, y: int)
    requires modulo >= 2 && Fits(modulo) && InversesHold(commands, modulo)
    ensures NewCombine(commands, modulo).Some?
    ensures var c := NewCombine(commands, modulo).value;
      TrackAll(commands, (c.a * y + c.b) % modulo, modulo) == y % modulo
    decreases |commands|
  {
    if commands == [] {
      CongMod(y, modulo);
    } else {
      CombineUndoes(commands[1..], modulo, y);
      var rest := NewCombine(commands[1..], modulo).value;
      StepUndoes(rest, commands[0], modulo, y);
    }
  }

  /** The affine map applied k times to y, modulo m. */
  function Iterate(c: Combine, k: nat, y: int, modulo: int): (r: int)
    requires modulo > 0
    ensures 0 <= r < modulo
  {
    if k == 0 then y % modulo else (c.a * Iterate(c, k - 1, y, modulo) + c.b) % modulo
  }

  /** The whole shuffle applied k times. */
  function TrackTimes(commands: seq<Shuffle>, k: nat, p: int, modulo: int): (r: int)
    requires modulo > 0
    ensures 0 <= r < modulo
  {
    if k == 0 then p % modulo else TrackTimes(commands, k - 1, TrackAll(commands, p, modulo), modulo)
  }

  /** Undoing k shuffles with the combined map: the card at y after k
      shuffles was at Iterate(k, y) before them. */
  lemma {:induction false} IterateUndoes(commands: seq<Shuffle>, modulo: int, k: nat, y: int)
    requires modulo >= 2 && Fits(modulo) && InversesHold(commands, modulo)
    ensures NewCombine(commands, modulo).Some?
    ensures TrackTimes(commands, k, Iterate(NewCombine(commands, modulo).value, k, y, modulo), modulo) == y % modulo
  {
    CombineUndoes(commands, modulo, y);
    var c := NewCombine(commands, modulo).value;
    if k == 0 {
      CongMod(y, modulo);
    } else {
      var previous := Iterate(c, k - 1, y, modulo);
      CombineUndoes(commands, modulo, previous);
      ModSmall(previous, modulo);
      IterateUndoes(commands, modulo, k - 1, y);
    }
  }

  /** apply_times: the closed form of the map applied times times,
      a^t * x + b * (a^t - 1) / (a - 1) modulo m, with the division done
      by modular_pow's inverse of a - 1. */
  function ApplyTimes(c: Combine, x: int, times: int, modulo: int): Option<int>
    requires modulo != 0
  {
    var power :- ModPow(c.a, times, modulo);
    var i1 := Rem(power * x, modulo);
    var i2 := Rem(power - 1, modulo);
    var i3 := Rem(c.b * i2, modulo);
    var i4 :- ModPow(c.a - 1, modulo - 2, modulo);
    Some(Rem(Rem(i1 + i3 * i4, modulo) + modulo, modulo))
  }

  /** The recurrence step of the closed form. */
  lemma ClosedStep(a: int, b: int, power: int, y: int, inv: int, modulo: int)
    requires modulo > 0 && Cong((a - 1) * inv, 1, modulo)
    ensures Cong(a * (power * y + b * (power - 1) * inv) + b, a * power * y + b * (a * power - 1) * inv, modulo)
  {
    assert a * (power * y + b * (power - 1) * inv) + b == a * power * y + a * b * (power - 1) * inv + b;
    assert b * (a * power - 1) * inv == a * b * (power - 1) * inv + b * ((a - 1) * inv) by {
      assert a * power - 1 == a * (power - 1) + (a - 1);
    }
    CongMul(b, b, (a - 1) * inv, 1, modulo);
    CongAdd(a * power * y + a * b * (power - 1) * inv, a * power * y + a * b * (power - 1) * inv,
            b, b * ((a - 1) * inv), modulo);
  }

  /** The map applied k times is congruent to the closed form. */
  lemma {:induction false} IterateClosed(c: Combine, k: nat, y: int, inv: int, modulo: int)
    requires modulo > 0 && Cong((c.a - 1) * inv, 1, modulo)
    ensures Cong(Iterate(c, k, y, modulo), Pow(c.a, k) * y + c.b * (Pow(c.a, k) - 1) * inv, modulo)
  {
    if k == 0 {
      CongMod(y, modulo);
      assert Pow(c.a, 0) * y + c.b * (Pow(c.a, 0) - 1) * inv == y;
    } else {
      var previous := Iterate(c, k - 1, y, modulo);
      var power := Pow(c.a, k - 1);
      IterateClosed(c, k - 1, y, inv, modulo);
      CongMod(c.a * previous + c.b, modulo);
      CongMulLeft(previous, power * y + c.b * (power - 1) * inv, c.a, modulo);
      assert previous * c.a == c.a * previous;
      assert (power * y + c.b * (power - 1) * inv) * c.a == c.a * (power * y + c.b * (power - 1) * inv);
      CongAdd(c.a * previous, c.a * (power * y + c.b * (power - 1) * inv), c.b, c.b, modulo);
      ClosedStep(c.a, c.b, power, y, inv, modulo);
      assert Pow(c.a, k) == c.a * power;
    }
  }

  /** The value apply_times reduces is congruent to the closed form. */
  lemma ApplyTimesCong(power: int, full: int, x: int, b: int, inv: int, modulo: int)
    requires modulo > 0 && Cong(power, full, modulo)
    ensures Cong(Rem(power * x, modulo) + Rem(b * Rem(power - 1, modulo), modulo) * inv,
                 full * x + b * (full - 1) * inv, modulo)
  {
    var i1 := Rem(power * x, modulo);
    var i2 := Rem(power - 1, modulo);
    var i3 := Rem(b * i2, modulo);
    CongRem(power * x, modulo);
    CongMulLeft(power, full, x, modulo);
    CongRem(power - 1, modulo);
    CongSub(power, full, 1, 1, modulo);
    CongRem(b * i2, modulo);
    CongMul(b, b, i2, full - 1, modulo);
    CongMulLeft(i3, b * (full - 1), inv, modulo);
    CongAdd(i1, full * x, i3 * inv, b * (full - 1) * inv, modulo);
  }

  /** Adding the modulus to Rust's remainder before reducing again gives
      the Euclidean remainder. */
  lemma RemNormalized(z: int, modulo: int)
    requires modulo > 0
    ensures Rem(Rem(z, modulo) + modulo, modulo) == z % modulo
  {
    var inner := Rem(z, modulo);
    CongRem(z, modulo);
    ModAddMul(inner, 1, modulo);
    RemNonNegative(inner + modulo, modulo);
  }

  /** apply_times agrees with applying the map times times, as a position
      in 0..m-1, whenever modular_pow's inverse of a - 1 is one. */
  lemma ApplyTimesIterates(c: Combine, x: int, times: nat, modulo: int)
    requires modulo >= 2 && Fits(modulo)
    requires ((c.a - 1) * ModPow(c.a - 1, modulo - 2, modulo).value) % modulo == 1
    ensures ApplyTimes(c, x, times, modulo) == Some(Iterate(c, times, x, modulo))
  {
    var m := modulo;
    ModPowCorrect(c.a, times, m);
    var power := ModPow(c.a, times, m).value;
    var inv := ModPow(c.a - 1, m - 2, m).value;
    var z := Rem(power * x, m) + Rem(c.b * Rem(power - 1, m), m) * inv;
    ModSmall(1, m);
    IterateClosed(c, times, x, inv, m);
    ApplyTimesCong(power, Pow(c.a, times), x, c.b, inv, m);
    RemNormalized(z, m);
    ModSmall(Iterate(c, times, x, m), m);
  }

  /** part2's deck size and shuffle count. */
  const DeckSize: int := 119315717514047
  const ShuffleCount: nat := 101741582076661

  /** part2: the number of the card at position 2020 after the shuffle is
      repeated ShuffleCount times. */
  function Part2(commands: seq<Shuffle>): Option<int>
  {
    var c :- NewCombine(commands, DeckSize);
    ApplyTimes(c, 2020, ShuffleCount, DeckSize)
  }

  /** part2 answers its question: following the card it names through all
      the shuffles lands it on position 2020. */
  lemma Part2Meaning(commands: seq<Shuffle>)
    requires InversesHold(commands, DeckSize)
    requires NewCombine(commands, DeckSize).Some? ==>
      var c := NewCombine(commands, DeckSize).value;
      ((c.a - 1) * ModPow(c.a - 1, DeckSize - 2, DeckSize).value) % DeckSize == 1
    ensures Part2(commands).Some?
    ensures TrackTimes(commands, ShuffleCount, Part2(commands).value, DeckSize) == 2020
  {
    assert Fits(DeckSize);
    IterateUndoes(commands, DeckSize, ShuffleCount, 2020);
    var c := NewCombine(commands, DeckSize).value;
    ApplyTimesIterates(c, 2020, ShuffleCount, DeckSize);
    ModSmall(2020, DeckSize);
  }
}
