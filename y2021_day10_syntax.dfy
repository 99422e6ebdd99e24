/** The syntax scoring of 2021 day 10: lines of brackets are scanned with
    a stack; a closer that does not match the innermost opener corrupts
    the line, and the openers left on the stack are completed and scored
    in base 5. */
module SyntaxScoring {
  import opened Prelude

  /** The four openers of the puzzle. */
  predicate IsOpening(c: char)
  {
    c == '(' || c == '[' || c == '{' || c == '<'
  }

  /** The closer paired with an opener. */
  function Closer(o: char): (c: char)
    requires IsOpening(o)
    ensures !IsOpening(c)
  {
    match o
    case '(' => ')'
    case '[' => ']'
    case '{' => '}'
    case '<' => '>'
  }

  /** The points of a corrupting character; None where the table has no
      entry (the lookup raises). */
  function InvalidPoints(c: char): (r: Option<nat>)
    ensures r.Some? <==> c == ')' || c == ']' || c == '}' || c == '>'
  {
    match c
    case ')' => Some(3)
    case ']' => Some(57)
    case '}' => Some(1197)
    case '>' => Some(25137)
    case _ => None
  }

  /** The digit that an opener left on the stack adds to a completion score. */
  function IncompletePoints(o: char): (r: nat)
    requires IsOpening(o)
    ensures 1 <= r <= 4
  {
    match o
    case '(' => 1
    case '[' => 2
    case '{' => 3
    case '<' => 4
  }

  predicate AllOpening(st: seq<char>)
  {
    forall i :: 0 <= i < |st| ==> IsOpening(st[i])
  }

  /** What the scan of a line has reached: a corrupting character, the
      openers still on the stack, or a pop from the empty stack (which
      raises in the source). */
  datatype Scan = Corrupt(found: char) | Open(stack: seq<char>) | Underflow

  /** One character of the scan, from the stack built so far. */
  function Step(st: seq<char>, c: char): Scan
  {
    if IsOpening(c) then Open(st + [c])
    else if st == [] then Underflow
    else if IsOpening(st[|st| - 1]) && Closer(st[|st| - 1]) == c then Open(st[..|st| - 1])
    else Corrupt(c)
  }

  /** The scan of a line: the steps from the first character to the last,
      stopping at the first one that does not leave the line open. */
  function ScanOf(line: string): (r: Scan)
    ensures r.Open? ==> AllOpening(r.stack)
  {
    if line == [] then Open([])
    else
      match ScanOf(line[..|line| - 1])
      case Open(st) => Step(st, line[|line| - 1])
      case other => other
  }

  lemma ScanSnoc(line: string, c: char)
    ensures ScanOf(line + [c]) ==
            match ScanOf(line)
            case Open(st) => Step(st, c)
            case other => other
  {
    assert (line + [c])[..|line|] == line;
  }

  /** Once a scan is corrupted or has underflowed, no further characters
      change it: the first failure is the one reported. */
  lemma {:induction false} ScanStuck(line: string, rest: string)
    requires !ScanOf(line).Open?
    ensures ScanOf(line + rest) == ScanOf(line)
  {
    if rest != [] {
      var init := rest[..|rest| - 1];
      ScanStuck(line, init);
      ScanSnoc(line + init, rest[|rest| - 1]);
      assert line + rest == (line + init) + [rest[|rest| - 1]];
    } else {
      assert line + rest == line;
    }
  }

  /** validate: the points of the corrupting character, 0 when the line is
      not corrupted, None where the source raises (a closer on the empty
      stack, or a character outside the points table). */
  function ValidateOf(line: string): Option<nat>
  {
    match ScanOf(line)
    case Corrupt(c) => InvalidPoints(c)
    case Open(_) => Some(0)
    case Underflow => None
  }

  /** The completion score of the openers on a stack: the innermost (last)
      one is completed first and so is the most significant base-5 digit. */
  function StackScore(st: seq<char>): nat
    requires AllOpening(st)
  {
    if st == [] then 0 else IncompletePoints(st[0]) + 5 * StackScore(st[1..])
  }

  /** complete: 0 for a corrupted line, the score of the remaining stack
      otherwise, None where the source raises. */
  function CompleteOf(line: string): Option<nat>
  {
    match ScanOf(line)
    case Corrupt(_) => Some(0)
    case Open(st) => Some(StackScore(st))
    case Underflow => None
  }

  /** validate: the stack loop, returning at the first mismatch. */
  method Validate(line: string) returns (r: Option<nat>)
    ensures r == ValidateOf(line)
  {
    var stack: seq<char> := [];
    for i := 0 to |line|
      invariant ScanOf(line[..i]) == Open(stack)
    {
      var c := line[i];
      ScanSnoc(line[..i], c);
      assert line[..i + 1] == line[..i] + [c];
      if IsOpening(c) {
        stack := stack + [c];
      } else {
        if stack == [] {
          ScanStuck(line[..i + 1], line[i + 1..]);
          assert line[..i + 1] + line[i + 1..] == line;
          return None;
        }
        var matching := stack[|stack| - 1];
        stack := stack[..|stack| - 1];
        if Closer(matching) != c {
          ScanStuck(line[..i + 1], line[i + 1..]);
          assert line[..i + 1] + line[i + 1..] == line;
          return InvalidPoints(c);
        }
      }
    }
    assert line[..|line|] == line;
    return Some(0);
  }

  /** The final loop of complete: the stack from the top down, each opener
      a base-5 digit. */
  method ScoreStack(stack: seq<char>) returns (score: nat)
    requires AllOpening(stack)
    ensures score == StackScore(stack)
  {
    score := 0;
    var k := |stack|;
    while k > 0
      invariant 0 <= k <= |stack|
      invariant score == StackScore(stack[k..])
    {
      var c := stack[k - 1];
      assert stack[k - 1..][1..] == stack[k..];
      score := score * 5;
      score := score + IncompletePoints(c);
      k := k - 1;
    }
  }

  /** complete: the stack loop, 0 at the first mismatch, then the score. */
  method Complete(line: string) returns (r: Option<nat>)
    ensures r == CompleteOf(line)
  {
    var stack: seq<char> := [];
    for i := 0 to |line|
      invariant ScanOf(line[..i]) == Open(stack)
    {
      var c := line[i];
      ScanSnoc(line[..i], c);
      assert line[..i + 1] == line[..i] + [c];
      if IsOpening(c) {
        stack := stack + [c];
      } else {
        if stack == [] {
          ScanStuck(line[..i + 1], line[i + 1..]);
          assert line[..i + 1] + line[i + 1..] == line;
          return None;
        }
        var matching := stack[|stack| - 1];
        stack := stack[..|stack| - 1];
        if Closer(matching) != c {
          ScanStuck(line[..i + 1], line[i + 1..]);
          assert line[..i + 1] + line[i + 1..] == line;
          return Some(0);
        }
      }
    }
    assert line[..|line|] == line;
    var score := ScoreStack(stack);
    return Some(score);
  }

  /** A closer that meets a non-matching opener decides both results, whatever
      follows it: validate gives that closer's points and complete gives 0. */
  lemma FirstMismatch(line: string, k: nat)
    requires k < |line| && ScanOf(line[..k]).Open?
    requires !IsOpening(line[k])
    requires var st := ScanOf(line[..k]).stack;
             st != [] && Closer(st[|st| - 1]) != line[k]
    ensures ValidateOf(line) == InvalidPoints(line[k])
    ensures CompleteOf(line) == Some(0)
  {
    ScanSnoc(line[..k], line[k]);
    assert line[..k] + [line[k]] == line[..k + 1];
    ScanStuck(line[..k + 1], line[k + 1..]);
    assert line[..k + 1] + line[k + 1..] == line;
  }

  /** Conversely, a corrupted line has a first corrupting position: the
      scan is open just before it and that character is the one scored. */
  lemma {:induction false} CorruptHasFirstMismatch(line: string)
    requires ScanOf(line).Corrupt?
    ensures exists k :: 0 <= k < |line| && line[k] == ScanOf(line).found &&
              ScanOf(line[..k]).Open? && ScanOf(line[..k + 1]) == ScanOf(line)
  {
    var init := line[..|line| - 1];
    assert line == init + [line[|line| - 1]];
    ScanSnoc(init, line[|line| - 1]);
    if ScanOf(init).Open? {
      assert line[..|line|] == line;
    } else {
      CorruptHasFirstMismatch(init);
      var k :| 0 <= k < |init| && init[k] == ScanOf(init).found &&
                ScanOf(init[..k]).Open? && ScanOf(init[..k + 1]) == ScanOf(init);
      assert init[..k] == line[..k] && init[..k + 1] == line[..k + 1];
    }
  }

  /** The closers that complete a stack, innermost first. */
  function Completion(st: seq<char>): (cs: string)
    requires AllOpening(st)
    ensures |cs| == |st|
  {
    if st == [] then [] else [Closer(st[|st| - 1])] + Completion(st[..|st| - 1])
  }

  /** The matching closer pops the innermost opener. */
  lemma CloseTop(line: string, st: seq<char>)
    requires ScanOf(line) == Open(st) && st != []
    ensures ScanOf(line + [Closer(st[|st| - 1])]) == Open(st[..|st| - 1])
  {
    ScanSnoc(line, Closer(st[|st| - 1]));
  }

  /** Appending the completion closes every open chunk: the scan of the
      completed line ends on the empty stack. */
  lemma {:induction false} CompletionCloses(line: string, st: seq<char>)
    requires ScanOf(line) == Open(st)
    ensures ScanOf(line + Completion(st)) == Open([])
    decreases |st|
  {
    if st != [] {
      var o := st[|st| - 1];
      CloseTop(line, st);
      CompletionCloses(line + [Closer(o)], st[..|st| - 1]);
      var rest := Completion(st[..|st| - 1]);
      assert Completion(st) == [Closer(o)] + rest;
      assert line + ([Closer(o)] + rest) == (line + [Closer(o)]) + rest;
    } else {
      assert line + Completion(st) == line;
    }
  }

  /** The puzzle's scoring of a completion string: for each closer in turn,
      multiply the total by 5 and add the closer's value. */
  function CloserValue(c: char): nat
  {
    match c
    case ')' => 1
    case ']' => 2
    case '}' => 3
    case '>' => 4
    case _ => 0
  }

  function CompletionScore(cs: string): nat
  {
    if cs == [] then 0 else CompletionScore(cs[..|cs| - 1]) * 5 + CloserValue(cs[|cs| - 1])
  }

  lemma {:induction false} CompletionScoreAppend(a: string, b: string)
    ensures CompletionScore(a + b) == CompletionScore(a) * Pow(5, |b|) + CompletionScore(b)
  {
    if b != [] {
      var init := b[..|b| - 1];
      var v := CloserValue(b[|b| - 1]);
      CompletionScoreAppend(a, init);
      assert (a + b)[..|a + b| - 1] == a + init;
      assert CompletionScore(a + b) == CompletionScore(a + init) * 5 + v;
      assert CompletionScore(b) == CompletionScore(init) * 5 + v;
      var p := Pow(5, |init|);
      assert Pow(5, |b|) == 5 * p;
      calc {
        CompletionScore(a + b);
        (CompletionScore(a) * p + CompletionScore(init)) * 5 + v;
        { TimesFive(CompletionScore(a), p); }
        CompletionScore(a) * (5 * p) + (CompletionScore(init) * 5 + v);
      }
    } else {
      assert a + b == a;
    }
  }

  lemma TimesFive(x: int, p: int)
    ensures (x * p) * 5 == x * (5 * p)
  {
  }

  /** The base-5 stack score is the puzzle's score of the completion string. */
  lemma {:induction false} StackScoreIsCompletionScore(st: seq<char>)
    requires AllOpening(st)
    ensures StackScore(st) == CompletionScore(Completion(st))
  {
    if st != [] {
      var top := st[|st| - 1];
      var init := st[..|st| - 1];
      StackScoreIsCompletionScore(init);
      StackScoreSnoc(init, top);
      assert st == init + [top];
      CompletionScoreAppend([Closer(top)], Completion(init));
      assert CompletionScore([Closer(top)]) == IncompletePoints(top) by {
        assert [Closer(top)][..0] == [];
      }
    }
  }

  lemma {:induction false} StackScoreSnoc(st: seq<char>, o: char)
    requires AllOpening(st) && IsOpening(o)
    ensures AllOpening(st + [o])
    ensures StackScore(st + [o]) == StackScore(st) + IncompletePoints(o) * Pow(5, |st|)
  {
    if st == [] {
      assert [o][1..] == [];
    } else {
      StackScoreSnoc(st[1..], o);
      assert (st + [o])[1..] == st[1..] + [o];
    }
  }

  /** A stack score is positive exactly when openers remain. */
  lemma StackScorePositive(st: seq<char>)
    requires AllOpening(st)
    ensures StackScore(st) > 0 <==> st != []
  {
  }

  /** The score decodes back to the stack: its last base-5 digit is the
      outermost opener and the rest is the score of the others. */
  lemma StackScoreDigit(st: seq<char>)
    requires AllOpening(st) && st != []
    ensures StackScore(st) % 5 == IncompletePoints(st[0]) % 5
    ensures StackScore(st) / 5 == StackScore(st[1..]) + IncompletePoints(st[0]) / 5
  {
  }

  /** So distinct stacks never share a completion score. */
  lemma {:induction false} StackScoreInjective(a: seq<char>, b: seq<char>)
    requires AllOpening(a) && AllOpening(b)
    requires StackScore(a) == StackScore(b)
    ensures a == b
  {
    if a != [] && b != [] {
      StackScoreDigit(a);
      StackScoreDigit(b);
      assert a[0] == b[0];
      StackScoreInjective(a[1..], b[1..]);
      assert a == [a[0]] + a[1..] && b == [b[0]] + b[1..];
    } else if a != [] {
      StackScorePositive(a);
    } else if b != [] {
      StackScorePositive(b);
    }
  }

  /** Small lines: "(]" is corrupted by ']' and "([" completes with "])". */
  lemma ScanExamples()
    ensures ValidateOf("(]") == Some(57) && CompleteOf("(]") == Some(0)
    ensures ValidateOf("([") == Some(0) && CompleteOf("([") == Some(11)
    ensures ValidateOf("()") == Some(0) && CompleteOf("()") == Some(0)
  {
    assert "(]"[..1] == "(" && "(["[..1] == "(" && "()"[..1] == "(";
    assert "("[..0] == [];
    assert ['(', '['][1..] == ['['];
  }

  /** The stack whose completion is the puzzle's example "}}]])})]" scores
      288957. */
  lemma ScoreExample()
    ensures StackScore("[({([[{{") == 288957
  {
    var s := "[({([[{{";
    assert s[8..] == [];
    assert s[7..][1..] == s[8..] && StackScore(s[7..]) == 3;
    assert s[6..][1..] == s[7..] && StackScore(s[6..]) == 18;
    assert s[5..][1..] == s[6..] && StackScore(s[5..]) == 92;
    assert s[4..][1..] == s[5..] && StackScore(s[4..]) == 462;
    assert s[3..][1..] == s[4..] && StackScore(s[3..]) == 2311;
    assert s[2..][1..] == s[3..] && StackScore(s[2..]) == 11558;
    assert s[1..][1..] == s[2..] && StackScore(s[1..]) == 57791;
    assert s[0..] == s;
  }

  /** part_one: the validate points summed over the lines, None if any line
      raises. */
  function PartOne(lines: seq<string>): (r: Option<nat>)
    ensures r.Some? <==> forall i :: 0 <= i < |lines| ==> ValidateOf(lines[i]).Some?
  {
    if lines == [] then Some(0)
    else
      match (PartOne(lines[..|lines| - 1]), ValidateOf(lines[|lines| - 1]))
      case (Some(a), Some(b)) => Some(a + b)
      case _ => None
  }

  /** The positive completion scores in line order (the filter), None if
      any line raises. */
  function PositiveScores(lines: seq<string>): (r: Option<seq<nat>>)
    ensures r.Some? ==> forall i :: 0 <= i < |r.value| ==> r.value[i] > 0
    ensures r.Some? <==> forall i :: 0 <= i < |lines| ==> CompleteOf(lines[i]).Some?
  {
    if lines == [] then Some([])
    else
      match (PositiveScores(lines[..|lines| - 1]), CompleteOf(lines[|lines| - 1]))
      case (Some(a), Some(b)) => Some(if b > 0 then a + [b] else a)
      case _ => None
  }

  predicate SortedUp(s: seq<nat>)
  {
    forall i, j :: 0 <= i < j < |s| ==> s[i] <= s[j]
  }

  /** Insertion of one score into a sorted list. */
  function Insert(x: nat, s: seq<nat>): (r: seq<nat>)
    requires SortedUp(s)
    ensures SortedUp(r) && multiset(r) == multiset(s) + multiset{x}
    ensures r[0] == if s == [] || x <= s[0] then x else s[0]
  {
    if s == [] then [x]
    else if x <= s[0] then [x] + s
    else
      var t := Insert(x, s[1..]);
      assert s == [s[0]] + s[1..];
      assert multiset(s) == multiset{s[0]} + multiset(s[1..]);
      assert s[0] <= t[0];
      [s[0]] + t
  }

  /** sorted: the scores in increasing order, a permutation of its input. */
  function Sort(s: seq<nat>): (r: seq<nat>)
    ensures SortedUp(r) && multiset(r) == multiset(s)
  {
    if s == [] then []
    else
      assert s == [s[0]] + s[1..];
      assert multiset(s) == multiset(s[1..]) + multiset{s[0]};
      Insert(s[0], Sort(s[1..]))
  }

  /** A sorted permutation is unique, so any sorting algorithm gives Sort's
      result. */
  lemma {:induction false} SortedUnique(a: seq<nat>, b: seq<nat>)
    requires SortedUp(a) && SortedUp(b) && multiset(a) == multiset(b)
    ensures a == b
  {
    if a != [] {
      SameHead(a, b);
      assert a == [a[0]] + a[1..] && b == [b[0]] + b[1..];
      assert multiset(a[1..]) == multiset(a) - multiset{a[0]};
      assert multiset(b[1..]) == multiset(b) - multiset{b[0]};
      assert SortedUp(a[1..]) && SortedUp(b[1..]);
      SortedUnique(a[1..], b[1..]);
    } else {
      assert |multiset(b)| == |b|;
    }
  }

  lemma SameHead(a: seq<nat>, b: seq<nat>)
    requires SortedUp(a) && SortedUp(b) && multiset(a) == multiset(b) && a != []
    ensures b != [] && a[0] == b[0]
  {
    assert a[0] in multiset(a);
    assert a[0] in b;
    var i :| 0 <= i < |b| && b[i] == a[0];
    assert b[0] in multiset(b);
    assert b[0] in a;
    var j :| 0 <= j < |a| && a[j] == b[0];
    assert b[0] <= b[i] && a[0] <= a[j];
  }

  /** part_two: the middle entry of the sorted positive scores; None when a
      line raises or when no line is incomplete (the index is out of range). */
  function PartTwo(lines: seq<string>): (r: Option<nat>)
  {
    match PositiveScores(lines)
    case None => None
    case Some(scores) =>
      var sorted := Sort(scores);
      if |sorted| == 0 then None else Some(sorted[|sorted| / 2])
  }

  /** The number of entries below a bound. */
  function CountBelow(s: seq<nat>, x: nat): nat
  {
    if s == [] then 0 else (if s[0] < x then 1 else 0) + CountBelow(s[1..], x)
  }

  function CountAbove(s: seq<nat>, x: nat): nat
  {
    if s == [] then 0 else (if s[0] > x then 1 else 0) + CountAbove(s[1..], x)
  }

  lemma {:induction false} CountsOfInsert(y: nat, s: seq<nat>, x: nat)
    requires SortedUp(s)
    ensures CountBelow(Insert(y, s), x) == CountBelow(s, x) + (if y < x then 1 else 0)
    ensures CountAbove(Insert(y, s), x) == CountAbove(s, x) + (if y > x then 1 else 0)
  {
    if s != [] && y > s[0] {
      CountsOfInsert(y, s[1..], x);
      assert ([s[0]] + Insert(y, s[1..]))[1..] == Insert(y, s[1..]);
    } else {
      assert ([y] + s)[1..] == s;
    }
  }

  /** Sorting keeps the counts below and above any bound. */
  lemma {:induction false} CountsOfSort(s: seq<nat>, x: nat)
    ensures CountBelow(Sort(s), x) == CountBelow(s, x)
    ensures CountAbove(Sort(s), x) == CountAbove(s, x)
  {
    if s != [] {
      CountsOfSort(s[1..], x);
      CountsOfInsert(s[0], Sort(s[1..]), x);
    }
  }

  /** In a sorted list, every entry below s[m] sits before position m and
      every entry above it after. */
  lemma {:induction false} SortedCounts(s: seq<nat>, m: nat)
    requires SortedUp(s) && m < |s|
    ensures CountBelow(s, s[m]) <= m
    ensures CountAbove(s, s[m]) <= |s| - 1 - m
  {
    if m > 0 {
      SortedCounts(s[1..], m - 1);
      assert s[1..][m - 1] == s[m];
    } else {
      CountsAtMost(s[1..], s[0]);
    }
  }

  lemma {:induction false} CountsAtMost(s: seq<nat>, x: nat)
    requires forall i :: 0 <= i < |s| ==> x <= s[i]
    ensures CountBelow(s, x) == 0 && CountAbove(s, x) <= |s|
  {
    if s != [] {
      CountsAtMost(s[1..], x);
    }
  }

  /** The part two answer is a median of the positive completion scores: one
      of them, with at most half of them below it and at most half above. */
  lemma PartTwoMedian(lines: seq<string>)
    requires PartTwo(lines).Some?
    ensures var scores := PositiveScores(lines).value;
            var r := PartTwo(lines).value;
            r in scores && r > 0 &&
            CountBelow(scores, r) <= |scores| / 2 &&
            CountAbove(scores, r) <= |scores| - 1 - |scores| / 2
  {
    var scores := PositiveScores(lines).value;
    var sorted := Sort(scores);
    var m := |sorted| / 2;
    assert sorted[m] in multiset(sorted);
    SortedCounts(sorted, m);
    CountsOfSort(scores, sorted[m]);
    assert |sorted| == |multiset(sorted)| == |scores|;
  }

  /** part_two yields an answer exactly when no line raises and some line
      is incomplete. */
  lemma PartTwoDefined(lines: seq<string>)
    ensures PartTwo(lines).Some? <==>
              (forall i :: 0 <= i < |lines| ==> CompleteOf(lines[i]).Some?) &&
              PositiveScores(lines).value != []
  {
    match PositiveScores(lines)
    case None =>
    case Some(scores) =>
      var sorted := Sort(scores);
      assert |sorted| == |multiset(sorted)| == |scores|;
  }
}
