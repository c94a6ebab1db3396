/** The tree-walking evaluator of evaluator.ts. `Eval` has no environment:
    literals, prefix and infix operators, if-expressions, blocks, return
    and programs compute values, and every other node gives NULL.

    The evaluator's arithmetic is JavaScript's; the one result this model
    has no value for is the quotient of a division by zero (Infinity,
    -Infinity or NaN), which ends evaluation with `Failure(NonFinite)`. */
module Evaluator {
  import opened Wrappers
  import opened Ast
  import opened Objects

  datatype Beyond = NonFinite

  type Answer = Result<Object, Beyond>

  /** The three shared objects; every other value is allocated where it is
      computed. */
  const NULL: Object := Null
  const TRUE: Object := Boolean(true)
  const FALSE: Object := Boolean(false)

  /** The values `Eval` produces itself: integers, booleans and null. It
      never makes a string, a function or an error. */
  predicate Primitive(o: Object) {
    o.Integer? || o.Boolean? || o.Null?
  }

  /** A value `Eval` can return: a primitive inside any number of `Return`
      wrappers. */
  predicate Produced(o: Object) {
    Primitive(Unwrapped(o))
  }

  /** `toBoolObj`. */
  function ToBoolObj(b: bool): (o: Object)
    ensures o.Boolean? && o.bvalue == b
  {
    if b then TRUE else FALSE
  }

  /** `left === right` for two values the evaluator made: only the shared
      objects can be the same object twice. */
  predicate Identical(l: Object, r: Object)
    ensures Identical(l, r) ==> l == r && (l.Boolean? || l.Null?)
  {
    (l == TRUE || l == FALSE || l == NULL) && l == r
  }

  /** `evalNotOperatorExpression`. */
  function EvalNot(right: Object): (o: Object)
    ensures o == ToBoolObj(!IsTruthy(right))
  {
    if right == TRUE then FALSE
    else if right == FALSE then TRUE
    else if right == NULL then TRUE
    else FALSE
  }

  /** `evalMinusPrefixOperatorExpression`. */
  function EvalMinus(right: Object): (o: Object)
    ensures right.Integer? ==> o == Integer(-right.value)
    ensures !right.Integer? ==> o == NULL
  {
    if TypeOf(right) != INT_OBJ then NULL else NewInteger(Some((-right.value) as real))
  }

  /** `evalPrefixExpression`. */
  function EvalPrefix(op: string, right: Object): (o: Object)
    ensures Primitive(o)
    ensures op == "!" ==> o.Boolean? && (o.bvalue <==> !IsTruthy(right))
    ensures op != "!" && op != "-" ==> o == NULL
  {
    if op == "!" then EvalNot(right)
    else if op == "-" then EvalMinus(right)
    else NULL
  }

  /** `evalIntInfixExpression`, after the casts of both operands. */
  function EvalIntInfix(op: string, left: Object, right: Object): (r: Answer)
    requires left.Integer? && right.Integer?
    ensures r.Failure? <==> op == "/" && right.value == 0
    ensures r.Success? ==> Primitive(r.value)
    ensures op in ["<", ">", "==", "!="] ==> r.Success? && r.value.Boolean?
    ensures op !in ["+", "-", "*", "/", "<", ">", "==", "!="] ==> r == Success(NULL)
  {
    var l, r := left.value, right.value;
    if op == "+" then Success(NewInteger(Some((l + r) as real)))
    else if op == "-" then Success(NewInteger(Some((l - r) as real)))
    else if op == "*" then Success(NewInteger(Some((l * r) as real)))
    else if op == "/" then (if r == 0 then Failure(NonFinite) else Success(NewInteger(Some(l as real / r as real))))
    else if op == "<" then Success(ToBoolObj(l < r))
    else if op == ">" then Success(ToBoolObj(l > r))
    else if op == "==" then Success(ToBoolObj(l == r))
    else if op == "!=" then Success(ToBoolObj(l != r))
    else Success(NULL)
  }

  /** `evalInfixExpression`. */
  function EvalInfix(op: string, left: Object, right: Object): (r: Answer)
    ensures r.Failure? <==> left.Integer? && right.Integer? && op == "/" && right.value == 0
    ensures r.Success? ==> Primitive(r.value)
    ensures op == "==" || op == "!=" ==> r.Success? && r.value.Boolean?
  {
    if TypeOf(left) == INT_OBJ && TypeOf(right) == INT_OBJ then EvalIntInfix(op, left, right)
    else if op == "==" then Success(ToBoolObj(Identical(left, right)))
    else if op == "!=" then Success(ToBoolObj(!Identical(left, right)))
    else Success(NULL)
  }

  /** `isTruthy`. */
  predicate IsTruthy(o: Object)
    ensures IsTruthy(o) <==> o != NULL && o != FALSE
  {
    if o == NULL then false
    else if o == FALSE then false
    else if o == TRUE then true
    else true
  }

  /** `Eval` on a nullable expression: `Eval(null)` falls through to NULL. */
  function EvalOpt(e: Option<Expression>): (r: Answer)
    ensures e.None? ==> r == Success(NULL)
    ensures r.Success? ==> Produced(r.value)
    decreases e
  {
    match e
    case None => Success(NULL)
    case Some(x) => EvalExpr(x)
  }

  /** `Eval` on the expression nodes. */
  function EvalExpr(e: Expression): (r: Answer)
    ensures r.Success? ==> Produced(r.value)
    ensures r.Success? && !e.IfExpression? ==> Primitive(r.value)
    decreases e, 1
  {
    match e
    case IntegerLiteral(_, v) => Success(NewInteger(Some(v as real)))
    case BooleanExpression(_, b) => Success(if b then TRUE else FALSE)
    case PrefixExpression(_, op, right) =>
      var r :- EvalOpt(right);
      Success(EvalPrefix(op, r))
    case InfixExpression(_, left, op, right) =>
      var r :- EvalOpt(right);
      var l :- EvalOpt(left);
      EvalInfix(op, l, r)
    case IfExpression(_, _, _, _) => EvalIf(e)
    case _ => Success(NULL)
  }

  /** `evalIfExpression`. */
  function EvalIf(e: Expression): (r: Answer)
    requires e.IfExpression?
    ensures r.Success? ==> Produced(r.value)
    ensures e.consequence.None? && e.alternative.None? ==> r.Success? ==> r.value == NULL
    decreases e, 0
  {
    var c :- EvalOpt(e.condition);
    if IsTruthy(c) then EvalOptBlock(e.consequence)
    else if e.alternative.Some? then EvalOptBlock(e.alternative)
    else Success(NULL)
  }

  function EvalOptBlock(b: Option<BlockStatement>): (r: Answer)
    ensures b.None? ==> r == Success(NULL)
    ensures r.Success? ==> Produced(r.value)
    decreases b
  {
    match b
    case None => Success(NULL)
    case Some(x) => BlockResult(x)
  }

  /** `Eval` on the statement nodes. */
  function EvalStmt(s: Statement): (r: Answer)
    ensures r.Success? ==> Produced(r.value)
    ensures r.Success? && s.ReturnStatement? ==> r.value.Return?
    ensures s.LetStatement? ==> r == Success(NULL)
    decreases s
  {
    match s
    case ExpressionStatement(_, e) => EvalOpt(e)
    case ReturnStatement(_, v) =>
      var x :- EvalOpt(v);
      Success(Return(x))
    case LetStatement(_, _, _) => Success(NULL)
  }

  /** What `evalBlockStatement` computes: the statements in order, stopping
      at the first result tagged RETURN, which is kept wrapped. */
  function BlockFold(ss: seq<Statement>, result: Object): (r: Answer)
    ensures r.Success? && Produced(result) ==> Produced(r.value)
    decreases ss
  {
    if ss == [] then Success(result)
    else
      var r :- EvalStmt(ss[0]);
      if TypeOf(r) == RETURN_OBJ then Success(r) else BlockFold(ss[1..], r)
  }

  function BlockResult(b: BlockStatement): (r: Answer)
    ensures r.Success? ==> Produced(r.value)
    ensures b.statements == [] ==> r == Success(NULL)
    decreases b
  {
    BlockFold(b.statements, NULL)
  }

  /** What `evalProgram` computes: the same walk, but the first `Return` is
      unwrapped. */
  function ProgramFold(ss: seq<Statement>, result: Object): (r: Answer)
    ensures r.Success? && Produced(result) ==> Produced(r.value)
    decreases ss
  {
    if ss == [] then Success(result)
    else
      var r :- EvalStmt(ss[0]);
      if r.Return? then Success(r.inner) else ProgramFold(ss[1..], r)
  }

  function ProgramResult(p: Program): (r: Answer)
    ensures r.Success? ==> Produced(r.value)
    ensures p.statements == [] ==> r == Success(NULL)
  {
    ProgramFold(p.statements, NULL)
  }

  /** `evalProgram`. */
  method EvalProgram(p: Program) returns (r: Answer)
    ensures r == ProgramResult(p)
  {
    var result := NULL;
    for i := 0 to |p.statements|
      invariant ProgramFold(p.statements[i..], result) == ProgramResult(p)
    {
      assert p.statements[i..][1..] == p.statements[i + 1..];
      var step := EvalStmt(p.statements[i]);
      if step.Failure? {
        return Failure(step.error);
      }
      result := step.value;
      if result.Return? {
        return Success(result.inner);
      }
    }
    return Success(result);
  }

  /** `evalBlockStatement`. */
  method EvalBlockStatement(b: BlockStatement) returns (r: Answer)
    ensures r == BlockResult(b)
  {
    var result := NULL;
    for i := 0 to |b.statements|
      invariant BlockFold(b.statements[i..], result) == BlockResult(b)
    {
      assert b.statements[i..][1..] == b.statements[i + 1..];
      var step := EvalStmt(b.statements[i]);
      if step.Failure? {
        return Failure(step.error);
      }
      result := step.value;
      if TypeOf(result) == RETURN_OBJ {
        return Success(result);
      }
    }
    return Success(result);
  }
}
