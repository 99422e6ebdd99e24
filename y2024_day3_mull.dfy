/** The corrupted-memory interpreter of 2024 day 3: mul(x,y) adds its
    product while multiplication is enabled, do() enables it and don't()
    disables it. */
module MullItOver {
  datatype Token = Mul(x: nat, y: nat) | Do | Dont

  /** The interpreter's state as a value. */
  datatype Status = Status(sum: nat, enabled: bool)

  /** The state part_two starts from. */
  const Initial := Status(0, true)

  /** State::apply on values. */
  function ApplyToken(s: Status, token: Token): (r: Status)
    ensures token.Mul? && s.enabled ==> r == Status(s.sum + token.x * token.y, true)
    ensures token.Mul? && !s.enabled ==> r == s
    ensures token == Do ==> r == Status(s.sum, true)
    ensures token == Dont ==> r == Status(s.sum, false)
  {
    match token
    case Mul(x, y) => if s.enabled then Status(s.sum + x * y, true) else s
    case Do => s.(enabled := true)
    case Dont => s.(enabled := false)
  }

  /** The state after applying the tokens in order. */
  function Interpret(s: Status, tokens: seq<Token>): Status
  {
    if tokens == [] then s else ApplyToken(Interpret(s, tokens[..|tokens| - 1]), tokens[|tokens| - 1])
  }

  /** Multiplication is enabled before token i when every don't() before it
      is followed, still before it, by a do(). */
  ghost predicate EnabledBefore(tokens: seq<Token>, i: nat)
    requires i <= |tokens|
  {
    forall j :: 0 <= j < i && tokens[j] == Dont ==> exists k :: j < k < i && tokens[k] == Do
  }

  /** The products of the mul tokens that are enabled, added up. */
  ghost function EnabledSum(tokens: seq<Token>): nat
  {
    if tokens == [] then 0
    else
      var n := |tokens| - 1;
      EnabledSum(tokens[..n]) + if tokens[n].Mul? && EnabledBefore(tokens, n) then tokens[n].x * tokens[n].y else 0
  }

  /** Whether a token is enabled depends only on the tokens before it. */
  lemma EnabledBeforePrefix(tokens: seq<Token>, i: nat, m: nat)
    requires i <= m <= |tokens|
    ensures EnabledBefore(tokens, i) == EnabledBefore(tokens[..m], i)
  {
    if EnabledBefore(tokens[..m], i) {
      forall j | 0 <= j < i && tokens[j] == Dont
        ensures exists k :: j < k < i && tokens[k] == Do
      {
        assert tokens[..m][j] == Dont;
        var k :| j < k < i && tokens[..m][k] == Do;
        assert tokens[k] == Do;
      }
    }
    if EnabledBefore(tokens, i) {
      forall j | 0 <= j < i && tokens[..m][j] == Dont
        ensures exists k :: j < k < i && tokens[..m][k] == Do
      {
        assert tokens[j] == Dont;
        var k :| j < k < i && tokens[k] == Do;
        assert tokens[..m][k] == Do;
      }
    }
  }

  /** How one more token changes whether multiplication is enabled. */
  lemma EnabledStep(tokens: seq<Token>, n: nat)
    requires n < |tokens|
    ensures tokens[n] == Do ==> EnabledBefore(tokens, n + 1)
    ensures tokens[n] == Dont ==> !EnabledBefore(tokens, n + 1)
    ensures tokens[n].Mul? ==> EnabledBefore(tokens, n + 1) == EnabledBefore(tokens, n)
  {
    if tokens[n].Mul? && EnabledBefore(tokens, n) {
      forall j | 0 <= j < n + 1 && tokens[j] == Dont
        ensures exists k :: j < k < n + 1 && tokens[k] == Do
      {
        var k :| j < k < n && tokens[k] == Do;
      }
    }
    if tokens[n].Mul? && EnabledBefore(tokens, n + 1) {
      forall j | 0 <= j < n && tokens[j] == Dont
        ensures exists k :: j < k < n && tokens[k] == Do
      {
        var k :| j < k < n + 1 && tokens[k] == Do;
        assert k != n;
      }
    }
  }

  /** part_two from the initial state: the sum is that of the enabled mul
      tokens, and multiplication ends enabled exactly when every don't() is
      followed by a do(). */
  lemma {:induction false} InterpretMeaning(tokens: seq<Token>)
    ensures Interpret(Initial, tokens).sum == EnabledSum(tokens)
    ensures Interpret(Initial, tokens).enabled == EnabledBefore(tokens, |tokens|)
  {
    if tokens != [] {
      var n := |tokens| - 1;
      var prefix := tokens[..n];
      InterpretMeaning(prefix);
      EnabledBeforePrefix(tokens, n, n);
      EnabledStep(tokens, n);
    }
  }

  /** The state part_two mutates. */
  class State {
    var sum: nat
    var enabled: bool

    function Snapshot(): Status
      reads this
    {
      Status(sum, enabled)
    }

    /** part_two's starting state: enabled, with sum 0. */
    constructor()
      ensures Snapshot() == Initial
    {
      sum := 0;
      enabled := true;
    }

    /** State::apply: a mul adds its product only while enabled; do and
        don't change only whether it is enabled. */
    method Apply(token: Token)
      modifies this
      ensures Snapshot() == ApplyToken(old(Snapshot()), token)
    {
      match token {
        case Mul(x, y) =>
          if enabled {
            sum := sum + x * y;
          }
        case Do =>
          enabled := true;
        case Dont =>
          enabled := false;
      }
    }
  }

  /** part_two on the tokens of a program: the sum of the enabled products. */
  method PartTwo(tokens: seq<Token>) returns (sum: nat)
    ensures sum == Interpret(Initial, tokens).sum
    ensures sum == EnabledSum(tokens)
  {
    var interpreter := new State();
    var i := 0;
    while i < |tokens|
      invariant i <= |tokens|
      invariant interpreter.Snapshot() == Interpret(Initial, tokens[..i])
    {
      interpreter.Apply(tokens[i]);
      assert tokens[..i + 1][..i] == tokens[..i];
      i := i + 1;
    }
    assert tokens[..i] == tokens;
    InterpretMeaning(tokens);
    sum := interpreter.sum;
  }

  /** The tokens of the part-two example: mul(2,4), don't(), mul(5,5),
      mul(11,8), do(), mul(8,5). */
  const Example := [Mul(2, 4), Dont, Mul(5, 5), Mul(11, 8), Do, Mul(8, 5)]

  /** The example sums to 48: only mul(2,4) and mul(8,5) are enabled. */
  lemma ExampleSum()
    ensures Interpret(Initial, Example).sum == 48
  {
    var states := [Status(8, true), Status(8, false), Status(8, false), Status(8, false), Status(8, true), Status(48, true)];
    for i := 0 to 6
      invariant i > 0 ==> Interpret(Initial, Example[..i]) == states[i - 1]
    {
      assert Example[..i + 1][..i] == Example[..i];
    }
    assert Example[..6] == Example;
  }
}
