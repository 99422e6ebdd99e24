/** The monkey math of 2022 day 21: expression trees over u64 literals,
    evaluated through a table of named equations, and the inversion that
    solves an equation with one unknown for that unknown. */
module MonkeyMath {
  import opened Prelude
  import Modular

  const U64Limit: nat := 0x1_0000_0000_0000_0000

  /** A u64 value. */
  type U64 = n: nat | n < U64Limit

  datatype Operation = Sum | Sub | Div | Mul

  datatype Expression =
    | Op(op: Operation, left: Expression, right: Expression)
    | Variable(name: string)
    | Literal(n: U64)
    | Unknown(name: string)

  /** u64 arithmetic as a debug build runs it: an overflow, an underflow
      or a division by zero panics, which is None here. */
  function Compute(op: Operation, a: U64, b: U64): (r: Option<U64>)
    ensures r.Some? ==> match op
      case Sum => r.value == a + b
      case Sub => r.value == a - b
      case Div => b != 0 && r.value == a / b
      case Mul => r.value == a * b
    ensures r.None? <==> match op
      case Sum => a + b >= U64Limit
      case Sub => a < b
      case Div => b == 0
      case Mul => a * b >= U64Limit
  {
    match op
    case Sum => if a + b < U64Limit then Some(a + b) else None
    case Sub => if a >= b then Some(a - b) else None
    case Div => if b != 0 then Some(a / b) else None
    case Mul => if a * b < U64Limit then Some(a * b) else None
  }

  /** Operation::apply: two literals are combined, anything else becomes
      an Op node over the two operands. */
  function Apply(op: Operation, left: Expression, right: Expression): (r: Option<Expression>)
    ensures r.None? ==> left.Literal? && right.Literal?
    ensures left.Literal? && right.Literal? ==>
      r == (var c := Compute(op, left.n, right.n); if c.Some? then Some(Literal(c.value)) else None)
    ensures !(left.Literal? && right.Literal?) ==> r == Some(Op(op, left, right))
  {
    if left.Literal? && right.Literal? then
      var c :- Compute(op, left.n, right.n);
      Some(Literal(c))
    else Some(Op(op, left, right))
  }

  /** Operation::invert: the operation that undoes op. */
  function InverseOp(op: Operation): (r: Operation)
    ensures r != op
    ensures (op == Sum || op == Sub) <==> (r == Sum || r == Sub)
  {
    match op
    case Sum => Sub
    case Sub => Sum
    case Div => Mul
    case Mul => Div
  }

  lemma InverseInvolution(op: Operation)
    ensures InverseOp(InverseOp(op)) == op
  {
  }

  /** Operation::from_str and the symbol each operation is written with. */
  function OperationFromStr(s: string): (r: Option<Operation>)
  {
    if s == "+" then Some(Sum)
    else if s == "-" then Some(Sub)
    else if s == "/" then Some(Div)
    else if s == "*" then Some(Mul)
    else None
  }

  function Symbol(op: Operation): string
  {
    match op
    case Sum => "+"
    case Sub => "-"
    case Div => "/"
    case Mul => "*"
  }

  /** from_str reads back every symbol, and only the four symbols. */
  lemma OperationRoundTrip(op: Operation, s: string)
    ensures OperationFromStr(Symbol(op)) == Some(op)
    ensures OperationFromStr(s) == Some(op) ==> s == Symbol(op)
    ensures OperationFromStr(s).None? <==> s !in {"+", "-", "/", "*"}
  {
  }

  /** Expression::value. */
  function Value(e: Expression): (r: Option<U64>)
    ensures r.Some? <==> e.Literal?
    ensures r.Some? ==> e == Literal(r.value)
  {
    if e.Literal? then Some(e.n) else None
  }

  /** Expression::invert: solve e == value for the unknown that e holds,
      peeling one operation at a time. An Op whose left side is a literal
      is c ~ x, any other Op is taken as x ~ c; a bare variable or literal
      panics. */
  function Invert(e: Expression, value: Expression): (r: Option<Expression>)
    decreases e
  {
    match e
    case Unknown(_) => Some(value)
    case Op(op, left, right) =>
      if left.Literal? then
        if op == Sum || op == Mul then
          var t :- Apply(InverseOp(op), value, left);
          Invert(right, t)
        else
          var t :- Apply(op, left, value);
          Invert(right, t)
      else
        var t :- Apply(InverseOp(op), value, right);
        Invert(left, t)
    case _ => None
  }

  /** Once the target is not a literal no step makes it one again. */
  lemma {:induction false} InvertNonLiteral(e: Expression, value: Expression)
    requires !value.Literal?
    ensures Invert(e, value).Some? ==> !Invert(e, value).value.Literal?
    decreases e
  {
    match e
    case Unknown(_) =>
    case Op(op, left, right) =>
      if left.Literal? {
        var t := if op == Sum || op == Mul then Apply(InverseOp(op), value, left) else Apply(op, left, value);
        InvertNonLiteral(right, t.value);
      } else {
        InvertNonLiteral(left, Apply(InverseOp(op), value, right).value);
      }
    case Variable(_) =>
    case Literal(_) =>
  }

  /** Every unknown of e replaced by the literal x. */
  function Plug(e: Expression, x: U64): (r: Expression)
    ensures !HasUnknown(r)
  {
    match e
    case Op(op, left, right) => Op(op, Plug(left, x), Plug(right, x))
    case Unknown(_) => Literal(x)
    case _ => e
  }

  predicate HasUnknown(e: Expression)
  {
    match e
    case Op(_, left, right) => HasUnknown(left) || HasUnknown(right)
    case Unknown(_) => true
    case _ => false
  }

  /** The value of an expression with no variables, operation by
      operation. */
  function Reduce(e: Expression): (r: Option<Expression>)
  {
    match e
    case Op(op, left, right) =>
      var a :- Reduce(left);
      var b :- Reduce(right);
      Apply(op, a, b)
    case Variable(_) => None
    case _ => Some(e)
  }

  /** The forward checks of an inversion: at every step the value found
      for the subexpression, put back through the operation, gives the
      target again. */
  predicate Checked(e: Expression, v: U64)
    decreases e
  {
    match e
    case Op(op, left, right) =>
      if left.Literal? then
        var t := if op == Sum || op == Mul then Apply(InverseOp(op), Literal(v), left) else Apply(op, left, Literal(v));
        t.Some? && t.value.Literal? ==> Apply(op, left, t.value) == Some(Literal(v)) && Checked(right, t.value.n)
      else if right.Literal? then
        var t := Apply(InverseOp(op), Literal(v), right);
        t.Some? && t.value.Literal? ==> Apply(op, t.value, right) == Some(Literal(v)) && Checked(left, t.value.n)
      else true
    case _ => true
  }

  /** A checked inversion that ends in a literal x solves the equation:
      with x for the unknown, e evaluates to v. */
  lemma {:induction false} InvertSound(e: Expression, v: U64, x: U64)
    requires Invert(e, Literal(v)) == Some(Literal(x))
    requires Checked(e, v)
    ensures Reduce(Plug(e, x)) == Some(Literal(v))
    decreases e
  {
    match e
    case Unknown(_) =>
    case Op(op, left, right) =>
      if left.Literal? {
        var t := if op == Sum || op == Mul then Apply(InverseOp(op), Literal(v), left) else Apply(op, left, Literal(v));
        assert t.Some? && Invert(right, t.value) == Some(Literal(x));
        if !t.value.Literal? {
          InvertNonLiteral(right, t.value);
        }
        InvertSound(right, t.value.n, x);
        assert Reduce(Plug(left, x)) == Some(left);
      } else {
        var t := Apply(InverseOp(op), Literal(v), right);
        assert t.Some? && Invert(left, t.value) == Some(Literal(x));
        if !t.value.Literal? {
          InvertNonLiteral(left, t.value);
        }
        InvertSound(left, t.value.n, x);
        assert Reduce(Plug(right, x)) == Some(right);
      }
  }

  /** The inversions that always check: sums and differences either way
      round, and x / c for a literal c other than 0. */
  predicate SafeOps(e: Expression)
  {
    match e
    case Op(op, left, right) =>
      if left.Literal? then (op == Sum || op == Sub) && SafeOps(right)
      else (op == Sum || op == Sub || (op == Div && right.Literal? && right.n != 0)) && SafeOps(left)
    case _ => true
  }

  lemma {:induction false} SafeChecked(e: Expression, v: U64)
    requires SafeOps(e)
    ensures Checked(e, v)
    decreases e
  {
    match e
    case Op(op, left, right) =>
      if left.Literal? {
        LeftStep(op, left.n, v);
        var t := if op == Sum then Apply(Sub, Literal(v), left) else Apply(op, left, Literal(v));
        if t.Some? && t.value.Literal? {
          SafeChecked(right, t.value.n);
        }
      } else if right.Literal? {
        RightStep(op, right.n, v);
        var t := Apply(InverseOp(op), Literal(v), right);
        if t.Some? && t.value.Literal? {
          SafeChecked(left, t.value.n);
        }
      }
    case _ =>
  }

  /** c + x == v and c - x == v: the value found for x gives v back. */
  lemma LeftStep(op: Operation, c: U64, v: U64)
    requires op == Sum || op == Sub
    ensures var t := if op == Sum then Compute(Sub, v, c) else Compute(Sub, c, v);
      t.Some? ==> Compute(op, c, t.value) == Some(v)
  {
  }

  /** x + c == v, x - c == v and x / c == v with c other than 0: the value
      found for x gives v back. */
  lemma RightStep(op: Operation, c: U64, v: U64)
    requires op == Sum || op == Sub || (op == Div && c != 0)
    ensures var t := Compute(InverseOp(op), v, c);
      t.Some? ==> Compute(op, t.value, c) == Some(v)
  {
    if op == Div && v * c < U64Limit {
      Modular.ModUnique(v * c, v, 0, c);
    }
  }

  /** Multiplication does not always check: 2 * x == 7 inverts to x == 3,
      and 2 * 3 is 6. */
  lemma MulInexact()
    ensures Invert(Op(Mul, Literal(2), Unknown("x")), Literal(7)) == Some(Literal(3))
    ensures Reduce(Plug(Op(Mul, Literal(2), Unknown("x")), 3)) == Some(Literal(6))
  {
  }

  /** Equations::eval, given fuel: the number of variables it may resolve
      along one path, since a cycle among the equations would recurse for
      ever. A variable with no equation panics, which is None here with
      the panics of Apply. */
  function Eval(equations: map<string, Expression>, e: Expression, fuel: nat): (r: Option<Expression>)
    decreases fuel, e
  {
    match e
    case Op(op, left, right) =>
      var a :- Eval(equations, left, fuel);
      var b :- Eval(equations, right, fuel);
      Apply(op, a, b)
    case Literal(n) => Some(Literal(n))
    case Variable(name) =>
      if name in equations && fuel > 0 then Eval(equations, equations[name], fuel - 1) else None
    case Unknown(name) => Some(Unknown(name))
  }

  /** The shape eval leaves: no variables, and an Op only over an operand
      that still holds an unknown. */
  predicate Normal(e: Expression)
  {
    match e
    case Op(_, left, right) => Normal(left) && Normal(right) && (HasUnknown(left) || HasUnknown(right))
    case Variable(_) => false
    case _ => true
  }

  lemma ApplyNormal(op: Operation, a: Expression, b: Expression)
    requires Normal(a) && Normal(b)
    ensures Apply(op, a, b).Some? ==> Normal(Apply(op, a, b).value)
  {
    if !(a.Literal? && b.Literal?) {
      assert HasUnknown(a) || HasUnknown(b);
    }
  }

  /** eval resolves every variable, and combines every pair of literals. */
  lemma {:induction false} EvalNormal(equations: map<string, Expression>, e: Expression, fuel: nat)
    ensures Eval(equations, e, fuel).Some? ==> Normal(Eval(equations, e, fuel).value)
    decreases fuel, e
  {
    match e
    case Op(op, left, right) =>
      EvalNormal(equations, left, fuel);
      EvalNormal(equations, right, fuel);
      var a := Eval(equations, left, fuel);
      var b := Eval(equations, right, fuel);
      if a.Some? && b.Some? {
        ApplyNormal(op, a.value, b.value);
      }
    case Literal(_) =>
    case Variable(name) =>
      if name in equations && fuel > 0 {
        EvalNormal(equations, equations[name], fuel - 1);
      }
    case Unknown(_) =>
  }

  /** Without an unknown the normal shape is a literal: eval of equations
      with no unknown gives a number. */
  lemma NormalLiteral(e: Expression)
    requires Normal(e) && !HasUnknown(e)
    ensures e.Literal?
  {
  }

  /** No equation holds an unknown, as parsing builds them. */
  predicate NoUnknown(equations: map<string, Expression>)
  {
    forall name | name in equations :: !HasUnknown(equations[name])
  }

  lemma ReduceLiteral(e: Expression, x: U64)
    requires e.Literal?
    ensures Reduce(Plug(e, x)) == Some(e)
  {
  }

  /** Evaluating with humn as an unknown and then putting x for it is
      evaluating with humn equal to x. */
  lemma {:induction false} EvalPlug(equations: map<string, Expression>, e: Expression, fuel: nat, x: U64)
    requires NoUnknown(equations) && !HasUnknown(e)
    requires Eval(equations["humn" := Unknown("humn")], e, fuel).Some?
    ensures Eval(equations["humn" := Literal(x)], e, fuel)
      == Reduce(Plug(Eval(equations["humn" := Unknown("humn")], e, fuel).value, x))
    decreases fuel, e
  {
    var withUnknown := equations["humn" := Unknown("humn")];
    var withValue := equations["humn" := Literal(x)];
    match e
    case Op(op, left, right) =>
      var a := Eval(withUnknown, left, fuel).value;
      var b := Eval(withUnknown, right, fuel).value;
      EvalPlug(equations, left, fuel, x);
      EvalPlug(equations, right, fuel, x);
      if a.Literal? && b.Literal? {
        ReduceLiteral(a, x);
        ReduceLiteral(b, x);
        var c := Apply(op, a, b);
        assert c.Some? && c.value.Literal?;
        ReduceLiteral(c.value, x);
      } else {
        assert Plug(Op(op, a, b), x) == Op(op, Plug(a, x), Plug(b, x));
      }
    case Literal(_) =>
    case Variable(name) =>
      if name != "humn" {
        assert withUnknown[name] == equations[name] == withValue[name];
        EvalPlug(equations, equations[name], fuel - 1, x);
      }
    case Unknown(_) =>
  }

  /** part_one: the value of root, when it is a number. */
  function PartOne(equations: map<string, Expression>, fuel: nat): (r: Option<U64>)
  {
    match Eval(equations, Variable("root"), fuel)
    case Some(Literal(n)) => Some(n)
    case _ => None
  }

  /** Equations with no unknown that evaluate at all give part_one a
      number, the value of root. */
  lemma PartOneNumber(equations: map<string, Expression>, fuel: nat)
    requires NoUnknown(equations)
    ensures PartOne(equations, fuel).Some? <==> Eval(equations, Variable("root"), fuel).Some?
    ensures PartOne(equations, fuel).Some? ==>
      Eval(equations, Variable("root"), fuel) == Some(Literal(PartOne(equations, fuel).value))
  {
    var e := Eval(equations, Variable("root"), fuel);
    if e.Some? {
      EvalNormal(equations, Variable("root"), fuel);
      NoUnknownEval(equations, Variable("root"), fuel);
      NormalLiteral(e.value);
    }
  }

  /** With no unknown anywhere, eval leaves none. */
  lemma {:induction false} NoUnknownEval(equations: map<string, Expression>, e: Expression, fuel: nat)
    requires NoUnknown(equations) && !HasUnknown(e)
    ensures Eval(equations, e, fuel).Some? ==> !HasUnknown(Eval(equations, e, fuel).value)
    decreases fuel, e
  {
    match e
    case Op(op, left, right) =>
      NoUnknownEval(equations, left, fuel);
      NoUnknownEval(equations, right, fuel);
    case Literal(_) =>
    case Variable(name) =>
      if name in equations && fuel > 0 {
        NoUnknownEval(equations, equations[name], fuel - 1);
      }
    case Unknown(_) =>
  }

  /** part_two: humn becomes the unknown, both sides of root are
      evaluated, and the left one is inverted against the right one. */
  function PartTwo(equations: map<string, Expression>, fuel: nat): (r: Option<U64>)
  {
    var withUnknown := equations["humn" := Unknown("humn")];
    if "root" !in withUnknown then None
    else match withUnknown["root"]
      case Op(_, left, right) =>
        var l :- Eval(withUnknown, left, fuel);
        var v :- Eval(withUnknown, right, fuel);
        var x :- Invert(l, v);
        Value(x)
      case _ => None
  }

  /** The answer of part_two balances root: with humn equal to it, both
      operands of root evaluate to the same number, provided the left one
      only needs inversions that check (SafeOps). */
  lemma PartTwoSound(equations: map<string, Expression>, fuel: nat)
    requires NoUnknown(equations) && "root" in equations
    requires PartTwo(equations, fuel).Some?
    requires equations["root"].Op?
    requires var withUnknown := equations["humn" := Unknown("humn")];
      SafeOps(Eval(withUnknown, equations["root"].left, fuel).value)
    ensures var withValue := equations["humn" := Literal(PartTwo(equations, fuel).value)];
      var root := equations["root"];
      Eval(withValue, root.left, fuel).Some? && Eval(withValue, root.left, fuel) == Eval(withValue, root.right, fuel)
  {
    var withUnknown := equations["humn" := Unknown("humn")];
    var root := equations["root"];
    assert withUnknown["root"] == root;
    var x := PartTwo(equations, fuel).value;
    var l := Eval(withUnknown, root.left, fuel).value;
    var v := Eval(withUnknown, root.right, fuel).value;
    assert Invert(l, v) == Some(Literal(x));
    if !v.Literal? {
      InvertNonLiteral(l, v);
    }
    assert !HasUnknown(root.left) && !HasUnknown(root.right);
    SafeChecked(l, v.n);
    InvertSound(l, v.n, x);
    EvalPlug(equations, root.left, fuel, x);
    EvalPlug(equations, root.right, fuel, x);
    ReduceLiteral(v, x);
  }

  // test_invert: four equations with the unknown on either side.

  /** 13 - x == 7 gives 6 and x - 10 == 11 gives 21. */
  lemma InvertSubExamples()
    ensures Value(Invert(Op(Sub, Literal(13), Unknown("x")), Literal(7)).value) == Some(6)
    ensures Value(Invert(Op(Sub, Unknown("x"), Literal(10)), Literal(11)).value) == Some(21)
  {
  }

  /** 6 / x == 3 gives 2 and x / 5 == 3 gives 15. */
  lemma InvertDivExamples()
    ensures Value(Invert(Op(Div, Literal(6), Unknown("x")), Literal(3)).value) == Some(2)
    ensures Value(Invert(Op(Div, Unknown("x"), Literal(5)), Literal(3)).value) == Some(15)
  {
  }
}
