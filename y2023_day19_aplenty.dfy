/** The part-sorting workflows of 2023 day 19. A part has four ratings,
    x, m, a and s; a workflow sends it to the destination of its first
    matching rule. Part two pushes boxes of ratings (one interval per
    rating) through the workflows instead of single parts. */
module Aplenty {
  import opened Prelude

  datatype Destination = Accept | Reject | Workflow(name: string)

  /** Destination::from. */
  function DestinationFrom(s: string): (r: Destination)
    ensures r == Accept <==> s == "A"
    ensures r == Reject <==> s == "R"
    ensures r.Workflow? ==> r.name == s
  {
    if s == "A" then Accept else if s == "R" then Reject else Workflow(s)
  }

  datatype Rule = Rule(key: char, lessThan: bool, value: nat, destination: Destination)

  datatype Part = Part(x: nat, m: nat, a: nat, s: nat)

  /** What an operation returns, unless it panics. */
  datatype Checked<T> = Ok(value: T) | Panic

  /** The four rating positions. */
  type Index = i: nat | i < 4

  /** The position of a rating key; None is the "Invalid key" panic. */
  function KeyIndex(key: char): (r: Option<Index>)
    ensures r.Some? <==> key in "xmas"
    ensures r.Some? ==> "xmas"[r.value] == key
  {
    if key == 'x' then Some(0) else if key == 'm' then Some(1)
    else if key == 'a' then Some(2) else if key == 's' then Some(3) else None
  }

  function Rating(part: Part, i: Index): nat
  {
    match i
    case 0 => part.x
    case 1 => part.m
    case 2 => part.a
    case 3 => part.s
  }

  /** A rule's comparison holds for a rating. */
  predicate Fires(lessThan: bool, threshold: nat, rating: nat)
  {
    if lessThan then rating < threshold else rating > threshold
  }

  /** Rule::outcome: the rule's destination when its comparison holds, None
      when it does not, and a panic for a key that is not a rating. */
  function RuleOutcome(rule: Rule, part: Part): (r: Checked<Option<Destination>>)
    ensures r.Panic? <==> KeyIndex(rule.key).None?
    ensures r.Ok? ==> (r.value.Some? <==> Fires(rule.lessThan, rule.value, Rating(part, KeyIndex(rule.key).value)))
    ensures r.Ok? && r.value.Some? ==> r.value.value == rule.destination
  {
    match KeyIndex(rule.key)
    case None => Panic
    case Some(i) => if Fires(rule.lessThan, rule.value, Rating(part, i)) then Ok(Some(rule.destination)) else Ok(None)
  }

  datatype WorkflowDef = WorkflowDef(name: string, rules: seq<Rule>, finalDestination: Destination)

  /** Workflow::outcome over the rules from the first on. */
  function RulesOutcome(rules: seq<Rule>, final: Destination, part: Part): Checked<Destination>
  {
    if rules == [] then Ok(final)
    else match RuleOutcome(rules[0], part)
      case Panic => Panic
      case Ok(Some(d)) => Ok(d)
      case Ok(None) => RulesOutcome(rules[1..], final, part)
  }

  function Outcome(w: WorkflowDef, part: Part): Checked<Destination>
  {
    RulesOutcome(w.rules, w.finalDestination, part)
  }

  /** The first rule that fires decides; a part no rule takes goes to the
      final destination. */
  lemma {:induction false} FirstMatch(rules: seq<Rule>, final: Destination, part: Part, d: Destination)
    requires RulesOutcome(rules, final, part) == Ok(d)
    ensures
      || (exists i :: 0 <= i < |rules| && RuleOutcome(rules[i], part) == Ok(Some(d))
            && forall j :: 0 <= j < i ==> RuleOutcome(rules[j], part) == Ok(None))
      || (d == final && forall j :: 0 <= j < |rules| ==> RuleOutcome(rules[j], part) == Ok(None))
  {
    if rules != [] && RuleOutcome(rules[0], part) == Ok(None) {
      var rest := rules[1..];
      FirstMatch(rest, final, part, d);
      if exists i :: 0 <= i < |rest| && RuleOutcome(rest[i], part) == Ok(Some(d))
          && forall j :: 0 <= j < i ==> RuleOutcome(rest[j], part) == Ok(None) {
        var i :| 0 <= i < |rest| && RuleOutcome(rest[i], part) == Ok(Some(d))
          && forall j :: 0 <= j < i ==> RuleOutcome(rest[j], part) == Ok(None);
        assert rules[i + 1] == rest[i];
        forall j | 0 <= j < i + 1
          ensures RuleOutcome(rules[j], part) == Ok(None)
        {
          if j > 0 {
            assert rules[j] == rest[j - 1];
          }
        }
      } else {
        forall j | 0 <= j < |rules|
          ensures RuleOutcome(rules[j], part) == Ok(None)
        {
          if j > 0 {
            assert rules[j] == rest[j - 1];
          }
        }
      }
    }
  }

  /** Inclusive bounds. */
  datatype Interval = Interval(min: nat, max: nat)

  predicate InInterval(iv: Interval, v: nat)
  {
    iv.min <= v <= iv.max
  }

  /** Interval::clamp: the intersection with min..max, None when it is
      empty. */
  function IntervalClamp(iv: Interval, min: nat, max: nat): (r: Option<Interval>)
    ensures r.Some? <==> Max(iv.min, min) <= Min(iv.max, max)
    ensures r.Some? ==> r.value == Interval(Max(iv.min, min), Min(iv.max, max))
    ensures r.Some? ==> forall v: nat :: InInterval(r.value, v) <==> InInterval(iv, v) && min <= v <= max
    ensures r.None? ==> forall v: nat :: !(InInterval(iv, v) && min <= v <= max)
  {
    var nMin := Max(iv.min, min);
    var nMax := Min(iv.max, max);
    if nMin <= nMax then Some(Interval(nMin, nMax)) else None
  }

  /** The box of IntervalPart: one interval per rating, x, m, a and s, the
      four entries of its array. */
  datatype IntervalPart = IntervalPart(x: Interval, m: Interval, a: Interval, s: Interval)

  /** intervals[i]. */
  function Get(p: IntervalPart, i: Index): Interval
  {
    match i
    case 0 => p.x
    case 1 => p.m
    case 2 => p.a
    case 3 => p.s
  }

  /** The box with intervals[i] replaced. */
  function With(p: IntervalPart, i: Index, iv: Interval): (r: IntervalPart)
    ensures Get(r, i) == iv
    ensures forall j: Index :: j != i ==> Get(r, j) == Get(p, j)
  {
    match i
    case 0 => p.(x := iv)
    case 1 => p.(m := iv)
    case 2 => p.(a := iv)
    case 3 => p.(s := iv)
  }

  /** IntervalPart::new: the same interval for every rating. */
  function NewPart(min: nat, max: nat): (r: IntervalPart)
    ensures forall i: Index :: Get(r, i) == Interval(min, max)
  {
    IntervalPart(Interval(min, max), Interval(min, max), Interval(min, max), Interval(min, max))
  }

  /** The box holds a part. */
  predicate InPart(p: IntervalPart, part: Part)
  {
    && InInterval(p.x, part.x)
    && InInterval(p.m, part.m)
    && InInterval(p.a, part.a)
    && InInterval(p.s, part.s)
  }

  /** IntervalPart::clamp: narrow the interval at index to the ratings for
      which the comparison with value holds; None when none is left. */
  function PartClamp(p: IntervalPart, index: Index, lessThan: bool, value: nat): (r: Option<IntervalPart>)
    ensures lessThan && value == 0 ==> r.None?
    ensures r.Some? ==> forall j: Index :: j != index ==> Get(r.value, j) == Get(p, j)
    ensures lessThan ==> (r.Some? <==> Get(p, index).min <= Get(p, index).max && Get(p, index).min < value)
    ensures lessThan && r.Some? ==> Get(r.value, index) == Interval(Get(p, index).min, Min(Get(p, index).max, value - 1))
    ensures !lessThan ==> (r.Some? <==> Get(p, index).min <= Get(p, index).max && value < Get(p, index).max)
    ensures !lessThan && r.Some? ==> Get(r.value, index) == Interval(Max(Get(p, index).min, value + 1), Get(p, index).max)
  {
    var clamped :=
      if lessThan then
        if value > 0 then IntervalClamp(Get(p, index), Get(p, index).min, value - 1) else None
      else IntervalClamp(Get(p, index), value + 1, Get(p, index).max);
    match clamped
    case None => None
    case Some(iv) => Some(With(p, index, iv))
  }

  /** What clamp means for one part: the narrowed box holds exactly the
      parts of the box whose rating at index passes the comparison. */
  lemma ClampMeaning(p: IntervalPart, index: Index, lessThan: bool, value: nat, part: Part)
    ensures PartClamp(p, index, lessThan, value).Some? ==>
      (InPart(PartClamp(p, index, lessThan, value).value, part) <==> InPart(p, part) && Fires(lessThan, value, Rating(part, index)))
    ensures PartClamp(p, index, lessThan, value).None? ==> !(InPart(p, part) && Fires(lessThan, value, Rating(part, index)))
  {
    var v := Rating(part, index);
    var iv := Get(p, index);
    if lessThan && value > 0 {
      assert InInterval(iv, v) && iv.min <= v <= value - 1 <==> InInterval(iv, v) && v < value;
    }
  }

  /** The two parts split returns. */
  datatype Halves = Halves(passing: Option<IntervalPart>, nonPassing: Option<IntervalPart>)

  /** IntervalPart::split: the ratings that pass the rule's comparison and
      those that do not, the second found by the reversed comparison with a
      threshold moved by one (saturating at 0). */
  function Split(p: IntervalPart, key: char, lessThan: bool, value: nat): (r: Checked<Halves>)
    ensures r.Panic? <==> KeyIndex(key).None?
    ensures r.Ok? ==> r.value.passing == PartClamp(p, KeyIndex(key).value, lessThan, value)
    ensures r.Ok? && lessThan ==> r.value.nonPassing == PartClamp(p, KeyIndex(key).value, false, if value == 0 then 0 else value - 1)
    ensures r.Ok? && !lessThan ==> r.value.nonPassing == PartClamp(p, KeyIndex(key).value, true, value + 1)
  {
    match KeyIndex(key)
    case None => Panic
    case Some(index) =>
      if lessThan then Ok(Halves(PartClamp(p, index, true, value), PartClamp(p, index, false, if value == 0 then 0 else value - 1)))
      else Ok(Halves(PartClamp(p, index, false, value), PartClamp(p, index, true, value + 1)))
  }

  /** split separates the parts of the box by the comparison: the passing
      box holds exactly the parts that pass; the non-passing box holds only
      parts that fail, and every part that fails except one whose rating is
      0 under a less-than rule with threshold 0. */
  lemma SplitMeaning(p: IntervalPart, key: char, lessThan: bool, value: nat, part: Part)
    requires KeyIndex(key).Some?
    ensures var h := Split(p, key, lessThan, value).value;
      var fires := Fires(lessThan, value, Rating(part, KeyIndex(key).value));
      && (h.passing.Some? ==> (InPart(h.passing.value, part) <==> InPart(p, part) && fires))
      && (h.passing.None? ==> !(InPart(p, part) && fires))
      && (h.nonPassing.Some? && InPart(h.nonPassing.value, part) ==> InPart(p, part) && !fires)
      && (InPart(p, part) && !fires && (value > 0 || !lessThan || Rating(part, KeyIndex(key).value) > 0) ==>
            h.nonPassing.Some? && InPart(h.nonPassing.value, part))
  {
    var index := KeyIndex(key).value;
    ClampMeaning(p, index, lessThan, value, part);
    if lessThan {
      ClampMeaning(p, index, false, if value == 0 then 0 else value - 1, part);
    } else {
      ClampMeaning(p, index, true, value + 1, part);
    }
  }

  /** The quirk of the saturating threshold: the non-passing half of
      x < 0 on 0..10 starts at 1, so a part with x = 0 is in neither half. */
  lemma SplitDropsZero()
    ensures Split(NewPart(0, 10), 'x', true, 0) == Ok(Halves(None, Some(IntervalPart(Interval(1, 10), Interval(0, 10), Interval(0, 10), Interval(0, 10)))))
  {
  }

  /** A destination and the box sent to it. */
  datatype Piece = Piece(destination: Destination, part: IntervalPart)

  function Prepend(head: seq<Piece>, rest: Checked<seq<Piece>>): (r: Checked<seq<Piece>>)
    ensures r.Ok? <==> rest.Ok?
    ensures r.Ok? ==> r.value == head + rest.value
  {
    match rest
    case Panic => Panic
    case Ok(pieces) => Ok(head + pieces)
  }

  lemma PrependAssociative(a: seq<Piece>, b: seq<Piece>, rest: Checked<seq<Piece>>)
    ensures Prepend(a, Prepend(b, rest)) == Prepend(a + b, rest)
    ensures Prepend([], rest) == rest
  {
    if rest.Ok? {
      assert a + (b + rest.value) == (a + b) + rest.value;
      assert [] + rest.value == rest.value;
    }
  }

  /** The piece a rule sends on, if its passing box is not empty. */
  function Head(rule: Rule, h: Halves): (r: seq<Piece>)
    ensures |r| <= 1
    ensures h.passing.Some? <==> |r| == 1
    ensures |r| == 1 ==> r[0] == Piece(rule.destination, h.passing.value)
  {
    if h.passing.Some? then [Piece(rule.destination, h.passing.value)] else []
  }

  /** Workflow::interval as written: each rule's passing box goes to its
      destination; the non-passing box, when there is one, replaces the box
      carried on, and otherwise the box is carried on unchanged; the box
      left at the end goes to the final destination. */
  function Pieces(rules: seq<Rule>, final: Destination, p: IntervalPart): Checked<seq<Piece>>
  {
    if rules == [] then Ok([Piece(final, p)])
    else match Split(p, rules[0].key, rules[0].lessThan, rules[0].value)
      case Panic => Panic
      case Ok(h) =>
        var next := if h.nonPassing.Some? then h.nonPassing.value else p;
        Prepend(Head(rules[0], h), Pieces(rules[1..], final, next))
  }

  /** No rating is 0. */
  predicate Positive(part: Part)
  {
    part.x > 0 && part.m > 0 && part.a > 0 && part.s > 0
  }

  /** Some piece holds the part and is bound for d. */
  ghost predicate Covers(pieces: seq<Piece>, part: Part, d: Destination)
  {
    exists i :: 0 <= i < |pieces| && InPart(pieces[i].part, part) && pieces[i].destination == d
  }

  /** Pieces put in front keep a covering piece, and a first piece that
      holds the part covers it. */
  lemma CoversAppend(head: seq<Piece>, rest: seq<Piece>, part: Part, d: Destination)
    ensures Covers(rest, part, d) ==> Covers(head + rest, part, d)
    ensures head != [] && InPart(head[0].part, part) && head[0].destination == d ==> Covers(head + rest, part, d)
  {
    if Covers(rest, part, d) {
      var i :| 0 <= i < |rest| && InPart(rest[i].part, part) && rest[i].destination == d;
      assert (head + rest)[|head| + i] == rest[i];
    }
    if head != [] && InPart(head[0].part, part) && head[0].destination == d {
      assert (head + rest)[0] == head[0];
    }
  }

  /** One rule's worth of Pieces on a box. */
  lemma PiecesStep(rules: seq<Rule>, final: Destination, p: IntervalPart)
    requires rules != [] && Pieces(rules, final, p).Ok?
    ensures KeyIndex(rules[0].key).Some?
    ensures var h := Split(p, rules[0].key, rules[0].lessThan, rules[0].value).value;
      var next := if h.nonPassing.Some? then h.nonPassing.value else p;
      && Pieces(rules[1..], final, next).Ok?
      && Pieces(rules, final, p).value == Head(rules[0], h) + Pieces(rules[1..], final, next).value
  {
  }

  /** The outcome of rules whose first rule is well-formed. */
  lemma OutcomeStep(rules: seq<Rule>, final: Destination, part: Part)
    requires rules != [] && KeyIndex(rules[0].key).Some?
    ensures var fires := Fires(rules[0].lessThan, rules[0].value, Rating(part, KeyIndex(rules[0].key).value));
      && (fires ==> RulesOutcome(rules, final, part) == Ok(rules[0].destination))
      && (!fires ==> RulesOutcome(rules, final, part) == RulesOutcome(rules[1..], final, part))
  {
  }

  /** Every part of the box with positive ratings lies in a piece bound for
      the destination the workflow sends it to. */
  lemma {:induction false} PiecesCover(rules: seq<Rule>, final: Destination, p: IntervalPart, part: Part)
    requires InPart(p, part) && Positive(part)
    requires RulesOutcome(rules, final, part).Ok?
    requires Pieces(rules, final, p).Ok?
    ensures Covers(Pieces(rules, final, p).value, part, RulesOutcome(rules, final, part).value)
  {
    if rules == [] {
      CoversAppend([Piece(final, p)], [], part, final);
      assert [Piece(final, p)] + [] == Pieces(rules, final, p).value;
    } else {
      var rule := rules[0];
      PiecesStep(rules, final, p);
      OutcomeStep(rules, final, part);
      SplitCover(p, rule.key, rule.lessThan, rule.value, part);
      var h := Split(p, rule.key, rule.lessThan, rule.value).value;
      var head := Head(rule, h);
      var next := if h.nonPassing.Some? then h.nonPassing.value else p;
      var rest := Pieces(rules[1..], final, next).value;
      if !Fires(rule.lessThan, rule.value, Rating(part, KeyIndex(rule.key).value)) {
        PiecesCover(rules[1..], final, next, part);
      }
      CoversAppend(head, rest, part, RulesOutcome(rules, final, part).value);
    }
  }

  /** The workflow of test_workflow_interval, "test{x<5:A,x>9:R,A}". */
  const TestWorkflow := WorkflowDef("test", [Rule('x', true, 5, Accept), Rule('x', false, 9, Reject)], Accept)

  /** On 0..10 it gives three pieces: x in 0..4 accepted, x = 10 rejected,
      x in 5..9 accepted. */
  lemma TestWorkflowPieces()
    ensures Pieces(TestWorkflow.rules, TestWorkflow.finalDestination, NewPart(0, 10)) == Ok([
      Piece(Accept, IntervalPart(Interval(0, 4), Interval(0, 10), Interval(0, 10), Interval(0, 10))),
      Piece(Reject, IntervalPart(Interval(10, 10), Interval(0, 10), Interval(0, 10), Interval(0, 10))),
      Piece(Accept, IntervalPart(Interval(5, 9), Interval(0, 10), Interval(0, 10), Interval(0, 10)))])
  {
    var rest := [Rule('x', false, 9, Reject)];
    assert TestWorkflow.rules[1..] == rest;
    var low := IntervalPart(Interval(0, 4), Interval(0, 10), Interval(0, 10), Interval(0, 10));
    var high := IntervalPart(Interval(5, 10), Interval(0, 10), Interval(0, 10), Interval(0, 10));
    var top := IntervalPart(Interval(10, 10), Interval(0, 10), Interval(0, 10), Interval(0, 10));
    var middle := IntervalPart(Interval(5, 9), Interval(0, 10), Interval(0, 10), Interval(0, 10));
    assert Split(NewPart(0, 10), 'x', true, 5) == Ok(Halves(Some(low), Some(high)));
    assert Split(high, 'x', false, 9) == Ok(Halves(Some(top), Some(middle)));
    assert Pieces(rest[1..], Accept, middle) == Ok([Piece(Accept, middle)]);
    assert [Piece(Reject, top)] + [Piece(Accept, middle)] == [Piece(Reject, top), Piece(Accept, middle)];
    assert Pieces(rest, Accept, high) == Ok([Piece(Reject, top), Piece(Accept, middle)]);
    assert [Piece(Accept, low)] + [Piece(Reject, top), Piece(Accept, middle)] == [Piece(Accept, low), Piece(Reject, top), Piece(Accept, middle)];
  }

  /** "w{x<5:A,x>2:R,A}" on 0..10 as written: x > 2 takes the whole
      remaining box 5..10, there is no non-passing box, and 5..10 is carried
      on to the final destination as well, so x = 5 is both rejected and
      accepted. */
  lemma OverlapAsWritten()
    ensures Pieces([Rule('x', true, 5, Accept), Rule('x', false, 2, Reject)], Accept, NewPart(0, 10)) == Ok([
      Piece(Accept, IntervalPart(Interval(0, 4), Interval(0, 10), Interval(0, 10), Interval(0, 10))),
      Piece(Reject, IntervalPart(Interval(5, 10), Interval(0, 10), Interval(0, 10), Interval(0, 10))),
      Piece(Accept, IntervalPart(Interval(5, 10), Interval(0, 10), Interval(0, 10), Interval(0, 10)))])
  {
    var rest := [Rule('x', false, 2, Reject)];
    assert [Rule('x', true, 5, Accept), Rule('x', false, 2, Reject)][1..] == rest;
    assert rest[1..] == [];
    var box := IntervalPart(Interval(5, 10), Interval(0, 10), Interval(0, 10), Interval(0, 10));
    assert Split(NewPart(0, 10), 'x', true, 5) == Ok(Halves(Some(IntervalPart(Interval(0, 4), Interval(0, 10), Interval(0, 10), Interval(0, 10))), Some(box)));
    assert Split(box, 'x', false, 2) == Ok(Halves(Some(box), None));
    assert Pieces(rest[1..], Accept, box) == Ok([Piece(Accept, box)]);
    assert [Piece(Reject, box)] + [Piece(Accept, box)] == [Piece(Reject, box), Piece(Accept, box)];
    assert Pieces(rest, Accept, box) == Ok([Piece(Reject, box), Piece(Accept, box)]);
    var low := IntervalPart(Interval(0, 4), Interval(0, 10), Interval(0, 10), Interval(0, 10));
    assert [Piece(Accept, low)] + [Piece(Reject, box), Piece(Accept, box)] == [Piece(Accept, low), Piece(Reject, box), Piece(Accept, box)];
  }

  /** Workflow::interval as evidently intended: once a rule has taken the
      whole remaining box, nothing is carried on. */
  function PiecesCorrected(rules: seq<Rule>, final: Destination, p: Option<IntervalPart>): Checked<seq<Piece>>
  {
    if p.None? then Ok([])
    else if rules == [] then Ok([Piece(final, p.value)])
    else match Split(p.value, rules[0].key, rules[0].lessThan, rules[0].value)
      case Panic => Panic
      case Ok(h) =>
        Prepend(Head(rules[0], h), PiecesCorrected(rules[1..], final, h.nonPassing))
  }

  /** One rule's worth of PiecesCorrected on a box. */
  lemma CorrectedStep(rules: seq<Rule>, final: Destination, p: IntervalPart)
    requires rules != [] && PiecesCorrected(rules, final, Some(p)).Ok?
    ensures KeyIndex(rules[0].key).Some?
    ensures var h := Split(p, rules[0].key, rules[0].lessThan, rules[0].value).value;
      && PiecesCorrected(rules[1..], final, h.nonPassing).Ok?
      && PiecesCorrected(rules, final, Some(p)).value == Head(rules[0], h) + PiecesCorrected(rules[1..], final, h.nonPassing).value
  {
  }

  /** Both halves of a split lie inside the box split. */
  lemma SplitInside(p: IntervalPart, key: char, lessThan: bool, value: nat, part: Part)
    requires KeyIndex(key).Some?
    ensures var h := Split(p, key, lessThan, value).value;
      && (h.passing.Some? && InPart(h.passing.value, part) ==> InPart(p, part))
      && (h.nonPassing.Some? && InPart(h.nonPassing.value, part) ==> InPart(p, part))
  {
    SplitMeaning(p, key, lessThan, value, part);
  }

  /** Every piece lies inside the box it was cut from. */
  lemma {:induction false} PiecesCorrectedInside(rules: seq<Rule>, final: Destination, p: Option<IntervalPart>, part: Part, i: nat)
    requires PiecesCorrected(rules, final, p).Ok? && i < |PiecesCorrected(rules, final, p).value|
    requires InPart(PiecesCorrected(rules, final, p).value[i].part, part)
    ensures p.Some? && InPart(p.value, part)
  {
    if p.Some? && rules != [] {
      var rule := rules[0];
      CorrectedStep(rules, final, p.value);
      SplitInside(p.value, rule.key, rule.lessThan, rule.value, part);
      var h := Split(p.value, rule.key, rule.lessThan, rule.value).value;
      var head := Head(rule, h);
      var rest := PiecesCorrected(rules[1..], final, h.nonPassing).value;
      if i >= |head| {
        assert PiecesCorrected(rules, final, p).value[i] == rest[i - |head|];
        PiecesCorrectedInside(rules[1..], final, h.nonPassing, part, i - |head|);
      }
    } else {
      InsideBase(rules, final, p);
    }
  }

  /** With no box there are no pieces; with no rules the one piece is the box. */
  lemma InsideBase(rules: seq<Rule>, final: Destination, p: Option<IntervalPart>)
    requires p.None? || rules == []
    ensures p.None? ==> PiecesCorrected(rules, final, p) == Ok([])
    ensures p.Some? ==> PiecesCorrected(rules, final, p) == Ok([Piece(final, p.value)])
  {
  }

  /** A part of the box with positive ratings lands in the half its
      comparison picks. */
  lemma SplitCover(p: IntervalPart, key: char, lessThan: bool, value: nat, part: Part)
    requires KeyIndex(key).Some? && InPart(p, part) && Positive(part)
    ensures var h := Split(p, key, lessThan, value).value;
      var fires := Fires(lessThan, value, Rating(part, KeyIndex(key).value));
      && (fires ==> h.passing.Some? && InPart(h.passing.value, part))
      && (!fires ==> h.nonPassing.Some? && InPart(h.nonPassing.value, part))
  {
    assert Rating(part, KeyIndex(key).value) > 0;
    SplitMeaning(p, key, lessThan, value, part);
  }

  /** With the correction every part of the box with positive ratings lies
      in a piece bound for the destination the workflow sends it to. */
  lemma {:induction false} PiecesCorrectedCover(rules: seq<Rule>, final: Destination, p: IntervalPart, part: Part)
    requires InPart(p, part) && Positive(part)
    requires RulesOutcome(rules, final, part).Ok?
    requires PiecesCorrected(rules, final, Some(p)).Ok?
    ensures Covers(PiecesCorrected(rules, final, Some(p)).value, part, RulesOutcome(rules, final, part).value)
  {
    if rules == [] {
      CoversAppend([Piece(final, p)], [], part, final);
      assert [Piece(final, p)] + [] == PiecesCorrected(rules, final, Some(p)).value;
    } else {
      var rule := rules[0];
      CorrectedStep(rules, final, p);
      OutcomeStep(rules, final, part);
      SplitCover(p, rule.key, rule.lessThan, rule.value, part);
      var h := Split(p, rule.key, rule.lessThan, rule.value).value;
      var head := Head(rule, h);
      var rest := PiecesCorrected(rules[1..], final, h.nonPassing).value;
      if !Fires(rule.lessThan, rule.value, Rating(part, KeyIndex(rule.key).value)) {
        PiecesCorrectedCover(rules[1..], final, h.nonPassing.value, part);
      }
      CoversAppend(head, rest, part, RulesOutcome(rules, final, part).value);
    }
  }

  /** With the correction no part lies in two pieces. */
  lemma {:induction false} PiecesCorrectedDisjoint(rules: seq<Rule>, final: Destination, p: Option<IntervalPart>, part: Part)
    requires PiecesCorrected(rules, final, p).Ok?
    ensures forall i, j :: 0 <= i < j < |PiecesCorrected(rules, final, p).value| ==>
      !(InPart(PiecesCorrected(rules, final, p).value[i].part, part) && InPart(PiecesCorrected(rules, final, p).value[j].part, part))
  {
    var pieces := PiecesCorrected(rules, final, p).value;
    if p.Some? && rules != [] {
      var rule := rules[0];
      SplitMeaning(p.value, rule.key, rule.lessThan, rule.value, part);
      var h := Split(p.value, rule.key, rule.lessThan, rule.value).value;
      var head := Head(rule, h);
      var rest := PiecesCorrected(rules[1..], final, h.nonPassing).value;
      assert pieces == head + rest;
      PiecesCorrectedDisjoint(rules[1..], final, h.nonPassing, part);
      if |head| == 1 && InPart(head[0].part, part) {
        forall j | 0 <= j < |rest|
          ensures !InPart(rest[j].part, part)
        {
          if InPart(rest[j].part, part) {
            PiecesCorrectedInside(rules[1..], final, h.nonPassing, part, j);
          }
        }
      }
      ConcatDisjoint(head, rest, part);
    }
  }

  /** A piece that shares no part with the pieces after it keeps a
      disjoint list disjoint. */
  lemma ConcatDisjoint(head: seq<Piece>, rest: seq<Piece>, part: Part)
    requires |head| <= 1
    requires forall i, j :: 0 <= i < j < |rest| ==> !(InPart(rest[i].part, part) && InPart(rest[j].part, part))
    requires |head| == 1 && InPart(head[0].part, part) ==> forall j :: 0 <= j < |rest| ==> !InPart(rest[j].part, part)
    ensures forall i, j :: 0 <= i < j < |head + rest| ==> !(InPart((head + rest)[i].part, part) && InPart((head + rest)[j].part, part))
  {
    var pieces := head + rest;
    forall a, b | 0 <= a < b < |pieces|
      ensures !(InPart(pieces[a].part, part) && InPart(pieces[b].part, part))
    {
      assert pieces[b] == rest[b - |head|];
      if a >= |head| {
        assert pieces[a] == rest[a - |head|];
      }
    }
  }

  /** With the correction every part of the box with positive ratings lies
      in exactly one piece, and that piece is bound for the destination the
      workflow sends the part to. */
  lemma PiecesExactlyOne(rules: seq<Rule>, final: Destination, p: IntervalPart, part: Part)
    requires InPart(p, part) && Positive(part)
    requires RulesOutcome(rules, final, part).Ok?
    requires PiecesCorrected(rules, final, Some(p)).Ok?
    ensures exists i :: (0 <= i < |PiecesCorrected(rules, final, Some(p)).value|
      && InPart(PiecesCorrected(rules, final, Some(p)).value[i].part, part)
      && PiecesCorrected(rules, final, Some(p)).value[i].destination == RulesOutcome(rules, final, part).value
      && forall j :: 0 <= j < |PiecesCorrected(rules, final, Some(p)).value| && j != i ==>
           !InPart(PiecesCorrected(rules, final, Some(p)).value[j].part, part))
  {
    var pieces := PiecesCorrected(rules, final, Some(p)).value;
    PiecesCorrectedCover(rules, final, p, part);
    PiecesCorrectedDisjoint(rules, final, Some(p), part);
    var i :| 0 <= i < |pieces| && InPart(pieces[i].part, part) && pieces[i].destination == RulesOutcome(rules, final, part).value;
  }

  /** With the correction the example above cuts 0..10 into two pieces. */
  lemma OverlapCorrected()
    ensures PiecesCorrected([Rule('x', true, 5, Accept), Rule('x', false, 2, Reject)], Accept, Some(NewPart(0, 10))) == Ok([
      Piece(Accept, IntervalPart(Interval(0, 4), Interval(0, 10), Interval(0, 10), Interval(0, 10))),
      Piece(Reject, IntervalPart(Interval(5, 10), Interval(0, 10), Interval(0, 10), Interval(0, 10)))])
  {
    var rest := [Rule('x', false, 2, Reject)];
    assert [Rule('x', true, 5, Accept), Rule('x', false, 2, Reject)][1..] == rest;
    var low := IntervalPart(Interval(0, 4), Interval(0, 10), Interval(0, 10), Interval(0, 10));
    var box := IntervalPart(Interval(5, 10), Interval(0, 10), Interval(0, 10), Interval(0, 10));
    assert Split(NewPart(0, 10), 'x', true, 5) == Ok(Halves(Some(low), Some(box)));
    assert Split(box, 'x', false, 2) == Ok(Halves(Some(box), None));
    assert PiecesCorrected(rest[1..], Accept, None) == Ok([]);
    assert [Piece(Reject, box)] + [] == [Piece(Reject, box)];
    assert PiecesCorrected(rest, Accept, Some(box)) == Ok([Piece(Reject, box)]);
    assert [Piece(Accept, low)] + [Piece(Reject, box)] == [Piece(Accept, low), Piece(Reject, box)];
  }

  /** Workflow::interval: the loop over the rules, pushing pieces. */
  method WorkflowInterval(w: WorkflowDef, initial: IntervalPart) returns (r: Checked<seq<Piece>>)
    ensures r == Pieces(w.rules, w.finalDestination, initial)
  {
    var outcomes: seq<Piece> := [];
    var part := initial;
    var i := 0;
    assert w.rules[0..] == w.rules;
    PrependAssociative([], [], Pieces(w.rules, w.finalDestination, initial));
    while i < |w.rules|
      invariant i <= |w.rules|
      invariant Pieces(w.rules, w.finalDestination, initial) == Prepend(outcomes, Pieces(w.rules[i..], w.finalDestination, part))
    {
      var rule := w.rules[i];
      assert w.rules[i..][1..] == w.rules[i + 1..];
      var halves := Split(part, rule.key, rule.lessThan, rule.value);
      if halves.Panic? {
        return Panic;
      }
      ghost var head := Head(rule, halves.value);
      ghost var next := if halves.value.nonPassing.Some? then halves.value.nonPassing.value else part;
      assert Pieces(w.rules[i..], w.finalDestination, part) == Prepend(head, Pieces(w.rules[i + 1..], w.finalDestination, next));
      PrependAssociative(outcomes, head, Pieces(w.rules[i + 1..], w.finalDestination, next));
      if halves.value.passing.Some? {
        outcomes := outcomes + [Piece(rule.destination, halves.value.passing.value)];
      }
      if halves.value.nonPassing.Some? {
        part := halves.value.nonPassing.value;
      }
      i := i + 1;
    }
    outcomes := outcomes + [Piece(w.finalDestination, part)];
    return Ok(outcomes);
  }

  datatype PassResult = Passed(destination: Destination) | PassPanicked | OutOfFuel

  /** System::pass from a location: follow workflows until a part is
      accepted or rejected, or the location names no workflow, which pass
      returns as a Workflow destination. Each workflow visited costs one
      unit of fuel. */
  function PassFrom(workflows: map<string, WorkflowDef>, location: string, part: Part, fuel: nat): (r: PassResult)
    ensures r.Passed? && r.destination.Workflow? ==> r.destination.name !in workflows
    ensures location !in workflows ==> r == Passed(Workflow(location))
    decreases fuel
  {
    if location !in workflows then Passed(Workflow(location))
    else if fuel == 0 then OutOfFuel
    else match Outcome(workflows[location], part)
      case Panic => PassPanicked
      case Ok(Accept) => Passed(Accept)
      case Ok(Reject) => Passed(Reject)
      case Ok(Workflow(next)) => PassFrom(workflows, next, part, fuel - 1)
  }

  /** More fuel does not change a result that did not run out. */
  lemma {:induction false} PassFuelMonotone(workflows: map<string, WorkflowDef>, location: string, part: Part, fuel: nat, more: nat)
    requires more >= fuel
    requires !PassFrom(workflows, location, part, fuel).OutOfFuel?
    ensures PassFrom(workflows, location, part, more) == PassFrom(workflows, location, part, fuel)
    decreases fuel
  {
    if location in workflows && fuel > 0 {
      match Outcome(workflows[location], part)
      case Ok(Workflow(next)) => PassFuelMonotone(workflows, next, part, fuel - 1, more - 1);
      case _ =>
    }
  }

  /** System::pass: the while loop from "in". */
  method Pass(workflows: map<string, WorkflowDef>, part: Part, fuel: nat) returns (r: PassResult)
    ensures r == PassFrom(workflows, "in", part, fuel)
  {
    var location := "in";
    var budget := fuel;
    while location in workflows
      invariant PassFrom(workflows, location, part, budget) == PassFrom(workflows, "in", part, fuel)
      decreases budget
    {
      if budget == 0 {
        return OutOfFuel;
      }
      var destination := Outcome(workflows[location], part);
      match destination {
        case Panic => return PassPanicked;
        case Ok(Accept) => return Passed(Accept);
        case Ok(Reject) => return Passed(Reject);
        case Ok(Workflow(next)) =>
          location := next;
          budget := budget - 1;
      }
    }
    return Passed(Workflow(location));
  }

  /** test_interval_clamp: 0..10 clamped to 5..15 is 5..10, and that
      clamped to 15..20 is empty. */
  lemma IntervalClampTest()
    ensures IntervalClamp(Interval(0, 10), 5, 15) == Some(Interval(5, 10))
    ensures IntervalClamp(Interval(5, 10), 15, 20) == None
  {
  }

  /** test_interval_part_clamp, first and last cases: x < 5 narrows x to
      0..4, and m < 0 leaves nothing. */
  lemma PartClampTest()
    ensures PartClamp(NewPart(0, 10), 0, true, 5).value.x == Interval(0, 4)
    ensures PartClamp(NewPart(0, 10), 1, true, 0) == None
  {
  }

  /** The middle case as written: x > 5 narrows x, the interval at index 0,
      and leaves the interval at index 1 at 0..10, which is not the 6..10
      the test expects there. */
  lemma PartClampTestAsWritten()
    ensures PartClamp(NewPart(0, 10), 0, false, 5).value.m == Interval(0, 10)
    ensures PartClamp(NewPart(0, 10), 0, false, 5).value.m.min != 6
  {
  }

  /** The middle case as evidently intended: the interval at index 0 becomes
      6..10. */
  lemma PartClampTestCorrected()
    ensures PartClamp(NewPart(0, 10), 0, false, 5).value.x == Interval(6, 10)
  {
  }
}
