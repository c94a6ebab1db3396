/** The syntax tree (ast.ts): one constructor per node class, with the
    nullable fields of the classes as `Option`s, and the two methods every
    node has, `tokenLiteral()` and `asString()`. */
module Ast {
  import opened Wrappers
  import opened Tokens
  import Numbers

  datatype Identifier = Identifier(token: Token, value: string)

  datatype Expression =
    | Ident(id: Identifier)
    | IntegerLiteral(token: Token, value: nat)
    | PrefixExpression(token: Token, operator: string, right: Option<Expression>)
    | InfixExpression(token: Token, left: Option<Expression>, operator: string, right: Option<Expression>)
    | BooleanExpression(token: Token, bvalue: bool)
    | IfExpression(token: Token, condition: Option<Expression>,
                   consequence: Option<BlockStatement>, alternative: Option<BlockStatement>)
    | FunctionLiteral(token: Token, params: seq<Identifier>, body: Option<BlockStatement>)
    | CallExpression(token: Token, callee: Option<Expression>, args: Option<Arguments>)
    | StringLiteral(token: Token, svalue: string)

  /** The argument array of a call; each entry may be null. */
  datatype Arguments = Arguments(items: seq<Option<Expression>>)

  datatype Statement =
    | LetStatement(token: Token, name: Option<Identifier>, value: Option<Expression>)
    | ReturnStatement(token: Token, value: Option<Expression>)
    | ExpressionStatement(token: Token, expression: Option<Expression>)

  datatype BlockStatement = BlockStatement(token: Token, statements: seq<Statement>)

  datatype Program = Program(statements: seq<Statement>)

  /** What JavaScript makes of `x?.asString()` when `x` is null, once it is
      concatenated to a string. */
  const Undefined: string := "undefined"

  /** `tokenLiteral()` of the expression nodes: the literal of the node's own token. */
  function ExprTokenLiteral(e: Expression): (r: string)
    ensures e.Ident? ==> r == e.id.token.Literal
    ensures !e.Ident? ==> r == e.token.Literal
  {
    match e
    case Ident(id) => id.token.Literal
    case IntegerLiteral(t, _) => t.Literal
    case PrefixExpression(t, _, _) => t.Literal
    case InfixExpression(t, _, _, _) => t.Literal
    case BooleanExpression(t, _) => t.Literal
    case IfExpression(t, _, _, _) => t.Literal
    case FunctionLiteral(t, _, _) => t.Literal
    case CallExpression(t, _, _) => t.Literal
    case StringLiteral(t, _) => t.Literal
  }

  /** `tokenLiteral()` of the statement nodes: the literal of the statement's
      own token, which a let or return line prints first. */
  function StmtTokenLiteral(s: Statement): (r: string)
    ensures !s.ExpressionStatement? ==> r + " " <= StmtString(s)
  {
    s.token.Literal
  }

  /** `Program.tokenLiteral()`: empty for an empty program, otherwise the first
      statement's. */
  function ProgramTokenLiteral(p: Program): (r: string)
    ensures p.statements == [] ==> r == ""
    ensures p.statements != [] ==> r == p.statements[0].token.Literal
  {
    if |p.statements| == 0 then "" else StmtTokenLiteral(p.statements[0])
  }

  /** `e?.asString()` for a nullable child. */
  function OptExprString(e: Option<Expression>): (r: string)
    ensures e.None? ==> r == Undefined
    ensures e.Some? ==> r == ExprString(e.value)
  {
    match e
    case None => Undefined
    case Some(x) => ExprString(x)
  }

  /** `b?.asString()` for a nullable block. */
  function OptBlockString(b: Option<BlockStatement>): (r: string)
    ensures b.None? ==> r == Undefined
    ensures b.Some? ==> r == BlockString(b.value)
  {
    match b
    case None => Undefined
    case Some(x) => BlockString(x)
  }

  /** `asString()` of the expression nodes. */
  function ExprString(e: Expression): (r: string)
    ensures e.Ident? ==> r == e.id.value
    ensures e.IntegerLiteral? ==> Numbers.Canonical(r)
  {
    match e
    case Ident(id) => id.value
    case IntegerLiteral(_, v) => Numbers.NatToString(v)
    case PrefixExpression(_, op, right) => "(" + op + OptExprString(right) + ")"
    case InfixExpression(_, left, op, right) =>
      "(" + OptExprString(left) + " " + op + " " + OptExprString(right) + ")"
    case BooleanExpression(t, _) => t.Literal
    case IfExpression(_, cond, cons, alt) =>
      "if" + OptExprString(cond) + " " + OptBlockString(cons)
      + (if alt.Some? then "else " + BlockString(alt.value) else "")
    case FunctionLiteral(t, params, body) =>
      t.Literal + "(" + ParamsString(params) + ")" + OptBlockString(body)
    case CallExpression(_, f, args) =>
      OptExprString(f) + "(" + (if args.Some? then ArgsString(args.value.items) else "") + ")"
    case StringLiteral(t, _) => t.Literal
  }

  /** Prefix and infix expressions print inside their own parentheses, and a
      call ends with its `)`. */
  lemma Parenthesised(e: Expression)
    ensures e.PrefixExpression? || e.InfixExpression? ==>
      |ExprString(e)| >= 2 && ExprString(e)[0] == '(' && ExprString(e)[|ExprString(e)| - 1] == ')'
    ensures e.CallExpression? ==> |ExprString(e)| >= 2 && ExprString(e)[|ExprString(e)| - 1] == ')'
  {
  }

  /** `params.map(p => p.asString()).join(', ')`. */
  function ParamsString(params: seq<Identifier>): (r: string)
    ensures params == [] ==> r == ""
    ensures params != [] ==> params[0].value <= r
  {
    if |params| == 0 then ""
    else if |params| == 1 then params[0].value
    else params[0].value + ", " + ParamsString(params[1..])
  }

  /** One element of the call's argument list: `join` writes a null entry as
      the empty string. */
  function ArgString(a: Option<Expression>): (r: string)
    ensures a.None? ==> r == ""
    ensures a.Some? ==> r == ExprString(a.value)
  {
    match a
    case None => ""
    case Some(x) => ExprString(x)
  }

  /** The argument renderings joined by ", ". */
  function ArgsString(args: seq<Option<Expression>>): (r: string)
    ensures args == [] ==> r == ""
    ensures args != [] ==> ArgString(args[0]) <= r
  {
    if |args| == 0 then ""
    else if |args| == 1 then ArgString(args[0])
    else ArgString(args[0]) + ", " + ArgsString(args[1..])
  }

  /** `asString()` of the statement nodes. */
  function StmtString(s: Statement): (r: string)
    ensures !s.ExpressionStatement? ==> |r| > |s.token.Literal| && r[..|s.token.Literal| + 1] == s.token.Literal + " "
    ensures !s.ExpressionStatement? ==> r[|r| - 1] == ';'
    ensures s.ExpressionStatement? ==> r == OptExprString(s.expression)
  {
    match s
    case LetStatement(t, name, value) =>
      t.Literal + " " + (if name.Some? then name.value.value else Undefined) + " = " + OptExprString(value) + ";"
    case ReturnStatement(t, value) => t.Literal + " " + OptExprString(value) + ";"
    case ExpressionStatement(_, e) => OptExprString(e)
  }

  /** The `for … out += s.asString()` fold shared by Program and BlockStatement. */
  function StatementsString(ss: seq<Statement>): (r: string)
    ensures ss == [] ==> r == ""
    ensures ss != [] ==> StmtString(ss[0]) <= r
  {
    if |ss| == 0 then "" else StmtString(ss[0]) + StatementsString(ss[1..])
  }

  /** A block renders as its statements alone: no braces. */
  function BlockString(b: BlockStatement): (r: string)
    ensures b.statements == [] ==> r == ""
    ensures |b.statements| == 1 ==> r == StmtString(b.statements[0])
  {
    StatementsString(b.statements)
  }

  function ProgramString(p: Program): (r: string)
    ensures p.statements == [] ==> r == ""
    ensures |p.statements| == 1 ==> r == StmtString(p.statements[0])
  {
    StatementsString(p.statements)
  }

  /** Statement lists render as the plain concatenation of their statements:
      no separator is put between two parts. */
  lemma {:induction false} StatementsAppend(a: seq<Statement>, b: seq<Statement>)
    ensures StatementsString(a + b) == StatementsString(a) + StatementsString(b)
    ensures BlockString(BlockStatement(NewToken(), a + b)) == ProgramString(Program(a)) + ProgramString(Program(b))
    decreases |a|
  {
    if |a| == 0 {
      assert a + b == b;
    } else {
      assert (a + b)[1..] == a[1..] + b;
      StatementsAppend(a[1..], b);
    }
  }

  /** `join(', ')` on parameter names: one more name is written after a
      separator, never before the first. */
  lemma {:induction false} ParamsJoin(params: seq<Identifier>, p: Identifier)
    ensures ParamsString([p]) == p.value
    ensures params != [] ==> ParamsString(params + [p]) == ParamsString(params) + ", " + p.value
    decreases |params|
  {
    if |params| == 1 {
      assert (params + [p])[1..] == [p];
    } else if |params| > 1 {
      assert (params + [p])[1..] == params[1..] + [p];
      ParamsJoin(params[1..], p);
    }
  }

  /** The same for the argument list, where a null entry counts as "". */
  lemma {:induction false} ArgsJoin(args: seq<Option<Expression>>, a: Option<Expression>)
    ensures ArgsString([a]) == ArgString(a)
    ensures args != [] ==> ArgsString(args + [a]) == ArgsString(args) + ", " + ArgString(a)
    decreases |args|
  {
    if |args| == 1 {
      assert (args + [a])[1..] == [a];
    } else if |args| > 1 {
      assert (args + [a])[1..] == args[1..] + [a];
      ArgsJoin(args[1..], a);
    }
  }

  /** The token literal of a program is decided by its first statement alone:
      statements appended after it do not change it, and an empty program
      takes that of whatever follows. */
  lemma ProgramTokenLiteralOfAppend(a: seq<Statement>, b: seq<Statement>)
    ensures ProgramTokenLiteral(Program([])) == ""
    ensures |a| > 0 ==> ProgramTokenLiteral(Program(a + b)) == ProgramTokenLiteral(Program(a))
    ensures |a| == 0 ==> ProgramTokenLiteral(Program(a + b)) == ProgramTokenLiteral(Program(b))
  {
    if |a| == 0 {
      assert a + b == b;
    } else {
      assert (a + b)[0] == a[0];
    }
  }

  /** An integer literal renders as the decimal numeral of its value: reading
      the rendering back gives the value. */
  lemma IntegerLiteralReadsBack(t: Token, v: nat)
    ensures Numbers.Canonical(ExprString(IntegerLiteral(t, v)))
    ensures Numbers.DigitsValue(ExprString(IntegerLiteral(t, v))) == v
  {
    Numbers.ReadRendered(v);
  }

  /** The one-let program of tests/ast.test.ts renders as "let myVar = anotherVar;". */
  lemma OneLetProgram()
    ensures ProgramString(Program([LetStatement(Token(LET, "let"),
              Some(Identifier(Token(IDENT, "myVar"), "myVar")),
              Some(Ident(Identifier(Token(IDENT, "anotherVar"), "anotherVar"))))]))
            == "let myVar = anotherVar;"
  {
    var s := LetStatement(Token(LET, "let"),
      Some(Identifier(Token(IDENT, "myVar"), "myVar")),
      Some(Ident(Identifier(Token(IDENT, "anotherVar"), "anotherVar"))));
    assert StmtString(s) == "let myVar = anotherVar;";
    assert StatementsString([s]) == StmtString(s) + StatementsString([]);
  }

  /** Opening minus closing parentheses in a string. */
  function Balance(s: string): int {
    if |s| == 0 then 0
    else (if s[0] == '(' then 1 else if s[0] == ')' then -1 else 0) + Balance(s[1..])
  }

  lemma {:induction false} BalanceAppend(a: string, b: string)
    ensures Balance(a + b) == Balance(a) + Balance(b)
    decreases |a|
  {
    if |a| == 0 {
      assert a + b == b;
    } else {
      assert (a + b)[1..] == a[1..] + b;
      BalanceAppend(a[1..], b);
    }
  }

  /** The fixed pieces the printer writes. */
  lemma FixedPieces()
    ensures Balance("(") == 1 && Balance(")") == -1
    ensures Balance(" ") == 0 && Balance(" = ") == 0 && Balance(";") == 0 && Balance(", ") == 0
    ensures Balance("if") == 0 && Balance("else ") == 0 && Balance("") == 0 && Balance(Undefined) == 0
  {
    assert "("[1..] == "" && ")"[1..] == "";
    PlainIsBalanced(" ");
    PlainIsBalanced(" = ");
    PlainIsBalanced(";");
    PlainIsBalanced(", ");
    PlainIsBalanced("if");
    PlainIsBalanced("else ");
    PlainIsBalanced(Undefined);
  }

  predicate Plain(s: string) {
    '(' !in s && ')' !in s
  }

  lemma {:induction false} PlainIsBalanced(s: string)
    requires Plain(s)
    ensures Balance(s) == 0
    decreases |s|
  {
    if |s| > 0 {
      assert s[0] in s;
      assert forall c :: c in s[1..] ==> c in s;
      PlainIsBalanced(s[1..]);
    }
  }

  /** The texts that a tree copies into its rendering (names, operators and
      token literals) hold no parenthesis. */
  predicate ExprPlain(e: Expression) {
    match e
    case Ident(id) => Plain(id.value)
    case IntegerLiteral(_, _) => true
    case PrefixExpression(_, op, right) => Plain(op) && (right.Some? ==> ExprPlain(right.value))
    case InfixExpression(_, left, op, right) =>
      Plain(op) && (left.Some? ==> ExprPlain(left.value)) && (right.Some? ==> ExprPlain(right.value))
    case BooleanExpression(t, _) => Plain(t.Literal)
    case IfExpression(_, cond, cons, alt) =>
      (cond.Some? ==> ExprPlain(cond.value)) && (cons.Some? ==> BlockPlain(cons.value))
      && (alt.Some? ==> BlockPlain(alt.value))
    case FunctionLiteral(t, params, body) =>
      Plain(t.Literal) && (forall i :: 0 <= i < |params| ==> Plain(params[i].value))
      && (body.Some? ==> BlockPlain(body.value))
    case CallExpression(_, f, args) =>
      (f.Some? ==> ExprPlain(f.value))
      && (args.Some? ==> forall i :: 0 <= i < |args.value.items| ==> ArgPlain(args.value.items[i]))
    case StringLiteral(t, _) => Plain(t.Literal)
  }

  predicate ArgPlain(a: Option<Expression>) {
    a.Some? ==> ExprPlain(a.value)
  }

  predicate StmtPlain(s: Statement) {
    && Plain(s.token.Literal)
    && match s
       case LetStatement(_, name, value) => (name.Some? ==> Plain(name.value.value)) && (value.Some? ==> ExprPlain(value.value))
       case ReturnStatement(_, value) => value.Some? ==> ExprPlain(value.value)
       case ExpressionStatement(_, e) => e.Some? ==> ExprPlain(e.value)
  }

  predicate BlockPlain(b: BlockStatement) {
    forall i :: 0 <= i < |b.statements| ==> StmtPlain(b.statements[i])
  }

  /** The printer parenthesises fully: as long as the names, operators and
      literals it copies hold no parenthesis, every opening parenthesis it
      writes is matched by a closing one, for every node kind. */
  lemma {:induction false} ExprBalanced(e: Expression)
    requires ExprPlain(e)
    ensures Balance(ExprString(e)) == 0
    decreases e, 1
  {
    FixedPieces();
    match e
    case Ident(id) =>
      PlainIsBalanced(id.value);
    case IntegerLiteral(_, v) =>
      var s := Numbers.NatToString(v);
      assert forall c :: c in s ==> Numbers.IsDigitChar(c);
      PlainIsBalanced(s);
    case PrefixExpression(_, op, right) =>
      PlainIsBalanced(op);
      OptExprBalanced(right);
      PrefixLineBalanced(op, OptExprString(right));
    case InfixExpression(_, left, op, right) =>
      PlainIsBalanced(op);
      OptExprBalanced(left);
      OptExprBalanced(right);
      InfixLineBalanced(OptExprString(left), op, OptExprString(right));
    case BooleanExpression(t, _) =>
      PlainIsBalanced(t.Literal);
    case IfExpression(_, cond, cons, alt) =>
      OptExprBalanced(cond);
      OptBlockBalanced(cons);
      var a := if alt.Some? then "else " + BlockString(alt.value) else "";
      if alt.Some? {
        BlockBalanced(alt.value);
        BalanceAppend("else ", BlockString(alt.value));
      }
      IfLineBalanced(OptExprString(cond), OptBlockString(cons), a);
    case FunctionLiteral(t, params, body) =>
      PlainIsBalanced(t.Literal);
      ParamsBalanced(params);
      OptBlockBalanced(body);
      CallLineBalanced(t.Literal, ParamsString(params));
      BalanceAppend(t.Literal + "(" + ParamsString(params) + ")", OptBlockString(body));
    case CallExpression(_, f, args) =>
      OptExprBalanced(f);
      if args.Some? {
        ArgsBalanced(args.value.items);
      }
      CallLineBalanced(OptExprString(f), if args.Some? then ArgsString(args.value.items) else "");
    case StringLiteral(t, _) =>
      PlainIsBalanced(t.Literal);
  }

  lemma {:induction false} OptExprBalanced(e: Option<Expression>)
    requires e.Some? ==> ExprPlain(e.value)
    ensures Balance(OptExprString(e)) == 0
    decreases e, 2
  {
    if e.Some? {
      ExprBalanced(e.value);
    } else {
      PlainIsBalanced(Undefined);
    }
  }

  lemma {:induction false} OptBlockBalanced(b: Option<BlockStatement>)
    requires b.Some? ==> BlockPlain(b.value)
    ensures Balance(OptBlockString(b)) == 0
    decreases b, 2
  {
    if b.Some? {
      BlockBalanced(b.value);
    } else {
      PlainIsBalanced(Undefined);
    }
  }

  lemma {:induction false} ParamsBalanced(params: seq<Identifier>)
    requires forall i :: 0 <= i < |params| ==> Plain(params[i].value)
    ensures Balance(ParamsString(params)) == 0
    decreases |params|
  {
    if |params| > 0 {
      PlainIsBalanced(params[0].value);
      if |params| > 1 {
        PlainIsBalanced(", ");
        BalanceAppend(params[0].value, ", ");
        BalanceAppend(params[0].value + ", ", ParamsString(params[1..]));
        ParamsBalanced(params[1..]);
      }
    }
  }

  lemma {:induction false} ArgsBalanced(args: seq<Option<Expression>>)
    requires forall i :: 0 <= i < |args| ==> ArgPlain(args[i])
    ensures Balance(ArgsString(args)) == 0
    decreases args
  {
    if |args| > 0 {
      ArgBalanced(args[0]);
      if |args| > 1 {
        var first := ArgString(args[0]);
        BalanceAppend(first, ", ");
        BalanceAppend(first + ", ", ArgsString(args[1..]));
        ArgsBalanced(args[1..]);
      }
    }
  }

  lemma {:induction false} ArgBalanced(a: Option<Expression>)
    requires ArgPlain(a)
    ensures Balance(ArgString(a)) == 0
    decreases a, 2
  {
    if a.Some? {
      ExprBalanced(a.value);
    }
  }

  /** The line of a let statement balances when its three parts do. */
  lemma LetLineBalanced(t: string, n: string, v: string)
    requires Balance(t) == 0 && Balance(n) == 0 && Balance(v) == 0
    ensures Balance(t + " " + n + " = " + v + ";") == 0
  {
    FixedPieces();
    BalanceAppend(t, " ");
    BalanceAppend(t + " ", n);
    BalanceAppend(t + " " + n, " = ");
    BalanceAppend(t + " " + n + " = ", v);
    BalanceAppend(t + " " + n + " = " + v, ";");
  }

  /** A prefix expression's text balances when its operator and operand do. */
  lemma PrefixLineBalanced(op: string, r: string)
    requires Balance(op) == 0 && Balance(r) == 0
    ensures Balance("(" + op + r + ")") == 0
  {
    FixedPieces();
    BalanceAppend("(", op);
    BalanceAppend("(" + op, r);
    BalanceAppend("(" + op + r, ")");
  }

  /** An infix expression's text balances when its three parts do. */
  lemma InfixLineBalanced(l: string, op: string, r: string)
    requires Balance(l) == 0 && Balance(op) == 0 && Balance(r) == 0
    ensures Balance("(" + l + " " + op + " " + r + ")") == 0
  {
    FixedPieces();
    BalanceAppend("(", l);
    BalanceAppend("(" + l, " ");
    BalanceAppend("(" + l + " ", op);
    BalanceAppend("(" + l + " " + op, " ");
    BalanceAppend("(" + l + " " + op + " ", r);
    BalanceAppend("(" + l + " " + op + " " + r, ")");
  }

  /** An if-expression's text balances when its parts do. */
  lemma IfLineBalanced(c: string, k: string, a: string)
    requires Balance(c) == 0 && Balance(k) == 0 && Balance(a) == 0
    ensures Balance("if" + c + " " + k + a) == 0
  {
    FixedPieces();
    BalanceAppend("if", c);
    BalanceAppend("if" + c, " ");
    BalanceAppend("if" + c + " ", k);
    BalanceAppend("if" + c + " " + k, a);
  }

  /** A name followed by a parenthesised list balances when both do. */
  lemma CallLineBalanced(f: string, a: string)
    requires Balance(f) == 0 && Balance(a) == 0
    ensures Balance(f + "(" + a + ")") == 0
  {
    FixedPieces();
    BalanceAppend(f, "(");
    BalanceAppend(f + "(", a);
    BalanceAppend(f + "(" + a, ")");
  }

  /** The line of a return statement balances when its two parts do. */
  lemma ReturnLineBalanced(t: string, v: string)
    requires Balance(t) == 0 && Balance(v) == 0
    ensures Balance(t + " " + v + ";") == 0
  {
    FixedPieces();
    BalanceAppend(t, " ");
    BalanceAppend(t + " ", v);
    BalanceAppend(t + " " + v, ";");
  }

  lemma {:induction false} StmtBalanced(s: Statement)
    requires StmtPlain(s)
    ensures Balance(StmtString(s)) == 0
    decreases s, 1
  {
    var t := s.token.Literal;
    PlainIsBalanced(t);
    match s
    case LetStatement(_, name, value) =>
      var n := if name.Some? then name.value.value else Undefined;
      PlainIsBalanced(n);
      OptExprBalanced(value);
      LetLineBalanced(t, n, OptExprString(value));
    case ReturnStatement(_, value) =>
      OptExprBalanced(value);
      ReturnLineBalanced(t, OptExprString(value));
    case ExpressionStatement(_, e) =>
      OptExprBalanced(e);
  }

  lemma {:induction false} StatementsBalanced(ss: seq<Statement>)
    requires forall i :: 0 <= i < |ss| ==> StmtPlain(ss[i])
    ensures Balance(StatementsString(ss)) == 0
    decreases ss
  {
    if |ss| > 0 {
      StmtBalanced(ss[0]);
      StatementsBalanced(ss[1..]);
      BalanceAppend(StmtString(ss[0]), StatementsString(ss[1..]));
    }
  }

  lemma {:induction false} BlockBalanced(b: BlockStatement)
    requires BlockPlain(b)
    ensures Balance(BlockString(b)) == 0
    decreases b, 0
  {
    StatementsBalanced(b.statements);
  }

  /** The same for whole programs. */
  lemma ProgramBalanced(p: Program)
    requires forall i :: 0 <= i < |p.statements| ==> StmtPlain(p.statements[i])
    ensures Balance(ProgramString(p)) == 0
  {
    StatementsBalanced(p.statements);
  }
}
