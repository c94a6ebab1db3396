/** What the evaluator of evaluator.ts computes, stated against independent
    definitions: truthiness, the operator tables, floored division, and the
    way a `return` leaves blocks and the program. */
module EvaluatorFacts {
  import opened Wrappers
  import Tokens
  import opened Ast
  import opened Objects
  import opened Evaluator

  /** `isTruthy` is false for NULL and FALSE only; 0 and the empty string are truthy. */
  lemma TruthinessTable(o: Object)
    ensures !IsTruthy(o) <==> o == NULL || o == FALSE
    ensures IsTruthy(Integer(0)) && IsTruthy(String(""))
  {
  }

  /** `!x` is TRUE exactly when `x` is not truthy. */
  lemma NotTable(o: Object)
    ensures EvalNot(o) == ToBoolObj(!IsTruthy(o))
    ensures EvalNot(TRUE) == FALSE && EvalNot(FALSE) == TRUE && EvalNot(NULL) == TRUE
    ensures EvalNot(Integer(0)) == FALSE
  {
  }

  /** `!!x` is the truthiness of `x` as a boolean. */
  lemma DoubleNot(o: Object)
    ensures EvalPrefix("!", EvalPrefix("!", o)) == ToBoolObj(IsTruthy(o))
  {
  }

  /** Unary `-` negates integers and gives NULL for anything else. */
  lemma MinusTable(o: Object)
    ensures o.Integer? ==> EvalPrefix("-", o) == Integer(-o.value)
    ensures !o.Integer? ==> EvalPrefix("-", o) == NULL
  {
  }

  /** `--n` is `n`. */
  lemma MinusInvolution(n: int)
    ensures EvalPrefix("-", EvalPrefix("-", Integer(n))) == Integer(n)
  {
    MinusTable(Integer(n));
    MinusTable(Integer(-n));
  }

  /** Any other prefix operator gives NULL. */
  lemma UnknownPrefix(op: string, o: Object)
    requires op != "!" && op != "-"
    ensures EvalPrefix(op, o) == NULL
  {
  }

  /** The floor of `a / b`, from Dafny's Euclidean division (whose remainder is
      never negative, so it rounds up instead of down for a negative divisor
      that does not divide `a`). */
  function FloorDiv(a: int, b: int): (q: int)
    requires b != 0
    ensures b > 0 ==> b * q <= a < b * q + b
    ensures b < 0 ==> b * q >= a > b * q + b
  {
    if b > 0 || a % b == 0 then a / b else a / b - 1
  }

  /** Two integers in the same unit interval below a real are equal. */
  lemma FloorUnique(x: real, m: int, n: int)
    requires m as real <= x < m as real + 1.0
    requires n as real <= x < n as real + 1.0
    ensures m == n
  {
  }

  /** A product with a positive factor has the sign of the other factor. */
  lemma SignOfProduct(y: real, c: real)
    requires c > 0.0
    ensures y * c >= 0.0 ==> y >= 0.0
    ensures y * c > 0.0 ==> y > 0.0
  {
  }

  /** Dividing real bounds by a positive divisor. */
  lemma DivideBounds(a: real, b: real, lo: real, hi: real)
    requires b > 0.0 && lo * b <= a < hi * b
    ensures lo <= a / b < hi
  {
    var x := a / b;
    assert x * b == a;
    assert (x - lo) * b == a - lo * b;
    SignOfProduct(x - lo, b);
    assert (hi - x) * b == hi * b - a;
    SignOfProduct(hi - x, b);
  }

  /** `q` is the floor of `a / b` when it satisfies FloorDiv's bounds. */
  lemma QuotientBounds(a: int, b: int, q: int)
    requires b != 0
    requires b > 0 ==> b * q <= a < b * q + b
    requires b < 0 ==> b * q >= a > b * q + b
    ensures q as real <= a as real / b as real < q as real + 1.0
  {
    var c, d := if b > 0 then a else -a, if b > 0 then b else -b;
    assert d * q <= c < d * q + d;
    assert (d * q) as real == (q as real) * (d as real);
    assert (d * q + d) as real == (q as real + 1.0) * (d as real);
    DivideBounds(c as real, d as real, q as real, q as real + 1.0);
    assert c as real / d as real == a as real / b as real;
  }

  /** On two integers, `/` gives the floored quotient; a zero divisor has no
      value in this model. */
  lemma {:induction false} FlooredDivision(a: int, b: int)
    ensures b == 0 ==> EvalInfix("/", Integer(a), Integer(b)) == Failure(NonFinite)
    ensures b != 0 ==> EvalInfix("/", Integer(a), Integer(b)) == Success(Integer(FloorDiv(a, b)))
  {
    if b != 0 {
      var x := a as real / b as real;
      var o := NewInteger(Some(x));
      QuotientBounds(a, b, FloorDiv(a, b));
      FloorUnique(x, o.value, FloorDiv(a, b));
    }
  }

  /** `7 / 2` is 3 and `-7 / 2` is -4: the quotient rounds down, not toward zero. */
  lemma DivisionRoundsDown()
    ensures EvalInfix("/", Integer(7), Integer(2)) == Success(Integer(3))
    ensures EvalInfix("/", Integer(-7), Integer(2)) == Success(Integer(-4))
    ensures EvalInfix("/", Integer(7), Integer(-2)) == Success(Integer(-4))
  {
    FlooredDivision(7, 2);
    FlooredDivision(-7, 2);
    FlooredDivision(7, -2);
  }

  /** On two integers, `+ - *` are exact and `< > == !=` give the shared booleans. */
  lemma IntegerOperators(a: int, b: int)
    ensures EvalInfix("+", Integer(a), Integer(b)) == Success(Integer(a + b))
    ensures EvalInfix("-", Integer(a), Integer(b)) == Success(Integer(a - b))
    ensures EvalInfix("*", Integer(a), Integer(b)) == Success(Integer(a * b))
    ensures EvalInfix("<", Integer(a), Integer(b)) == Success(if a < b then TRUE else FALSE)
    ensures EvalInfix(">", Integer(a), Integer(b)) == Success(if a > b then TRUE else FALSE)
    ensures EvalInfix("==", Integer(a), Integer(b)) == Success(if a == b then TRUE else FALSE)
    ensures EvalInfix("!=", Integer(a), Integer(b)) == Success(if a != b then TRUE else FALSE)
  {
  }

  /** The eight integer operators; anything else between integers is NULL. */
  predicate IntOperator(op: string) {
    op in ["+", "-", "*", "/", "<", ">", "==", "!="]
  }

  lemma UnknownIntegerOperator(op: string, a: int, b: int)
    requires !IntOperator(op)
    ensures EvalInfix(op, Integer(a), Integer(b)) == Success(NULL)
  {
  }

  /** `!=` always answers the negation of `==`, both on integers and on any
      other pair of values. */
  lemma NotEqualNegatesEqual(l: Object, r: Object)
    ensures EvalInfix("==", l, r).Success? && EvalInfix("==", l, r).value.Boolean?
    ensures EvalInfix("!=", l, r) == Success(EvalNot(EvalInfix("==", l, r).value))
  {
  }

  /** On the shared objects TRUE, FALSE and NULL, identity is value equality. */
  lemma SharedValuesCompareByValue(l: Object, r: Object)
    requires l == TRUE || l == FALSE || l == NULL
    requires r == TRUE || r == FALSE || r == NULL
    ensures EvalInfix("==", l, r) == Success(ToBoolObj(l == r))
    ensures EvalInfix("!=", l, r) == Success(ToBoolObj(l != r))
  {
  }

  /** Values made afresh are never identical, even when they hold the same
      value; an integer is never equal to a non-integer. */
  lemma FreshValuesDiffer(x: Object, n: int, o: Object)
    requires !o.Integer?
    ensures EvalInfix("==", Return(x), Return(x)) == Success(FALSE)
    ensures EvalInfix("==", String("a"), String("a")) == Success(FALSE)
    ensures EvalInfix("==", Integer(n), o) == Success(FALSE)
    ensures EvalInfix("!=", o, Integer(n)) == Success(TRUE)
  {
  }

  /** Unless both sides are integers, every operator but `==` and `!=` is NULL. */
  lemma MixedOperatorsAreNull(op: string, l: Object, r: Object)
    requires !(l.Integer? && r.Integer?) && op != "==" && op != "!="
    ensures EvalInfix(op, l, r) == Success(NULL)
  {
  }

  /** The right operand is evaluated before the left: when both fail, the
      right's failure is the one reported. */
  lemma RightOperandFirst(t: Tokens.Token, l: Expression, op: string, r: Expression)
    requires EvalExpr(r).Failure?
    ensures EvalExpr(InfixExpression(t, Some(l), op, Some(r))) == EvalExpr(r)
  {
  }

  /** An if-expression evaluates its consequence when the condition is truthy,
      else its alternative, else has value NULL. */
  lemma IfChooses(t: Tokens.Token, c: Expression, cons: Option<BlockStatement>, alt: Option<BlockStatement>, v: Object)
    requires EvalExpr(c) == Success(v)
    ensures IsTruthy(v) ==> EvalExpr(IfExpression(t, Some(c), cons, alt)) == EvalOptBlock(cons)
    ensures !IsTruthy(v) && alt.Some? ==> EvalExpr(IfExpression(t, Some(c), cons, alt)) == EvalOptBlock(alt)
    ensures !IsTruthy(v) && alt.None? ==> EvalExpr(IfExpression(t, Some(c), cons, alt)) == Success(NULL)
  {
    assert EvalOpt(Some(c)) == Success(v);
  }

  /** A missing condition is NULL and thus falsy. */
  lemma IfWithoutCondition(t: Tokens.Token, cons: Option<BlockStatement>)
    ensures EvalExpr(IfExpression(t, None, cons, None)) == Success(NULL)
  {
    assert EvalOpt(None) == Success(NULL);
  }

  /** The nodes `Eval` has no case for evaluate to NULL. */
  lemma OtherNodesAreNull(t: Tokens.Token, id: Identifier, params: seq<Identifier>, body: Option<BlockStatement>,
                          callee: Option<Expression>, args: Option<Arguments>, name: Option<Identifier>,
                          value: Option<Expression>, s: string)
    ensures EvalExpr(Ident(id)) == Success(NULL)
    ensures EvalExpr(FunctionLiteral(t, params, body)) == Success(NULL)
    ensures EvalExpr(CallExpression(t, callee, args)) == Success(NULL)
    ensures EvalExpr(StringLiteral(t, s)) == Success(NULL)
    ensures EvalStmt(LetStatement(t, name, value)) == Success(NULL)
    ensures EvalOpt(None) == Success(NULL)
  {
  }

  /** A return statement wraps its value. */
  lemma ReturnWraps(t: Tokens.Token, e: Option<Expression>, v: Object)
    requires EvalOpt(e) == Success(v)
    ensures EvalStmt(ReturnStatement(t, e)) == Success(Return(v))
  {
  }

  /** A statement that completes with a value that is not a `Return`. */
  predicate Completes(s: Statement) {
    EvalStmt(s).Success? && !EvalStmt(s).value.Return?
  }

  predicate AllComplete(ss: seq<Statement>) {
    forall i :: 0 <= i < |ss| ==> Completes(ss[i])
  }

  /** Without a return, a program has the value of its last statement, and
      NULL when it is empty. */
  lemma {:induction false} ProgramRunsToEnd(ss: seq<Statement>, r0: Object)
    requires AllComplete(ss)
    ensures ProgramFold(ss, r0) == Success(if ss == [] then r0 else EvalStmt(ss[|ss| - 1]).value)
    decreases |ss|
  {
    if ss != [] {
      assert Completes(ss[0]);
      assert AllComplete(ss[1..]) by {
        forall i | 0 <= i < |ss[1..]|
          ensures Completes(ss[1..][i])
        {
          assert ss[1..][i] == ss[i + 1];
        }
      }
      ProgramRunsToEnd(ss[1..], EvalStmt(ss[0]).value);
    }
  }

  /** The first `return` ends the program, and its value is unwrapped. */
  lemma {:induction false} ProgramStopsAtReturn(pre: seq<Statement>, s: Statement, post: seq<Statement>, r0: Object, v: Object)
    requires AllComplete(pre)
    requires EvalStmt(s) == Success(Return(v))
    ensures ProgramFold(pre + [s] + post, r0) == Success(v)
    decreases |pre|
  {
    if pre == [] {
      assert (pre + [s] + post)[0] == s;
    } else {
      var ss := pre + [s] + post;
      assert ss[0] == pre[0] && Completes(pre[0]);
      assert ss[1..] == pre[1..] + [s] + post;
      assert AllComplete(pre[1..]) by {
        forall i | 0 <= i < |pre[1..]|
          ensures Completes(pre[1..][i])
        {
          assert pre[1..][i] == pre[i + 1];
        }
      }
      ProgramStopsAtReturn(pre[1..], s, post, EvalStmt(pre[0]).value, v);
    }
  }

  /** Without a return, a block has the value of its last statement, and
      NULL when it is empty. */
  lemma {:induction false} BlockRunsToEnd(ss: seq<Statement>, r0: Object)
    requires AllComplete(ss)
    ensures BlockFold(ss, r0) == Success(if ss == [] then r0 else EvalStmt(ss[|ss| - 1]).value)
    decreases |ss|
  {
    if ss != [] {
      assert Completes(ss[0]);
      assert AllComplete(ss[1..]) by {
        forall i | 0 <= i < |ss[1..]|
          ensures Completes(ss[1..][i])
        {
          assert ss[1..][i] == ss[i + 1];
        }
      }
      BlockRunsToEnd(ss[1..], EvalStmt(ss[0]).value);
    }
  }

  /** The first `return` ends a block too, but the block keeps it wrapped. */
  lemma {:induction false} BlockStopsAtReturn(pre: seq<Statement>, s: Statement, post: seq<Statement>, r0: Object, v: Object)
    requires AllComplete(pre)
    requires EvalStmt(s) == Success(Return(v))
    ensures BlockFold(pre + [s] + post, r0) == Success(Return(v))
    decreases |pre|
  {
    if pre == [] {
      assert (pre + [s] + post)[0] == s;
    } else {
      var ss := pre + [s] + post;
      assert ss[0] == pre[0] && Completes(pre[0]);
      assert ss[1..] == pre[1..] + [s] + post;
      assert AllComplete(pre[1..]) by {
        forall i | 0 <= i < |pre[1..]|
          ensures Completes(pre[1..][i])
        {
          assert pre[1..][i] == pre[i + 1];
        }
      }
      BlockStopsAtReturn(pre[1..], s, post, EvalStmt(pre[0]).value, v);
    }
  }

  /** A `return` inside two nested if-blocks reaches the program, which
      unwraps it once: `if (true) { if (true) { return 10; } return 1; }` is 10. */
  lemma NestedReturn(t: Tokens.Token)
    ensures ProgramResult(Program([
              ExpressionStatement(t, Some(IfExpression(t, Some(BooleanExpression(t, true)), Some(BlockStatement(t, [
                ExpressionStatement(t, Some(IfExpression(t, Some(BooleanExpression(t, true)), Some(BlockStatement(t, [
                  ReturnStatement(t, Some(IntegerLiteral(t, 10)))])), None))),
                ReturnStatement(t, Some(IntegerLiteral(t, 1)))])), None)))]))
         == Success(Integer(10))
  {
    var ten := ReturnStatement(t, Some(IntegerLiteral(t, 10)));
    var one := ReturnStatement(t, Some(IntegerLiteral(t, 1)));
    var yes := Some(BooleanExpression(t, true));
    var inner := IfExpression(t, yes, Some(BlockStatement(t, [ten])), None);
    var outer := IfExpression(t, yes, Some(BlockStatement(t, [ExpressionStatement(t, Some(inner)), one])), None);
    assert EvalExpr(IntegerLiteral(t, 10)) == Success(Integer(10));
    assert EvalOpt(Some(IntegerLiteral(t, 10))) == Success(Integer(10));
    assert EvalStmt(ten) == Success(Return(Integer(10)));
    BlockStopsAtReturn([], ten, [], NULL, Integer(10));
    assert [] + [ten] + [] == [ten];
    assert EvalOpt(yes) == Success(TRUE);
    assert EvalOptBlock(Some(BlockStatement(t, [ten]))) == Success(Return(Integer(10)));
    assert EvalIf(inner) == Success(Return(Integer(10)));
    assert EvalExpr(inner) == Success(Return(Integer(10)));
    assert EvalStmt(ExpressionStatement(t, Some(inner))) == Success(Return(Integer(10)));
    BlockStopsAtReturn([], ExpressionStatement(t, Some(inner)), [one], NULL, Integer(10));
    assert [] + [ExpressionStatement(t, Some(inner))] + [one] == [ExpressionStatement(t, Some(inner)), one];
    assert EvalOptBlock(Some(BlockStatement(t, [ExpressionStatement(t, Some(inner)), one]))) == Success(Return(Integer(10)));
    assert EvalIf(outer) == Success(Return(Integer(10)));
    assert EvalExpr(outer) == Success(Return(Integer(10)));
    assert EvalStmt(ExpressionStatement(t, Some(outer))) == Success(Return(Integer(10)));
    ProgramStopsAtReturn([], ExpressionStatement(t, Some(outer)), [], NULL, Integer(10));
    assert [] + [ExpressionStatement(t, Some(outer))] + [] == [ExpressionStatement(t, Some(outer))];
  }

  /** `return` of a value that is itself a `Return` is unwrapped only once. */
  lemma UnwrappedOnce(t: Tokens.Token, e: Expression, v: Object)
    requires EvalExpr(e) == Success(Return(v))
    ensures ProgramResult(Program([ReturnStatement(t, Some(e))])) == Success(Return(v))
    ensures Inspect(Return(v)) == Inspect(v)
  {
    var s := ReturnStatement(t, Some(e));
    assert EvalOpt(Some(e)) == Success(Return(v));
    assert EvalStmt(s) == Success(Return(Return(v)));
    assert [s][1..] == [];
  }
}
