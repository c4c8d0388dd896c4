/** The tree-walking expression evaluator of src/interpreter.rs: literals map
    to values, and a type-dispatch table decides which operand/operator
    combinations are defined. Errors are values of EvalError rather than the
    formatted strings of the source. */
module Interpreter {
  import opened Wrappers
  import opened Scanner
  import opened Bytecode
  import Ast

  /** Why an expression has no value. */
  datatype EvalError =
    | InvalidOperands(left: Value, operator: TokenType, right: Value)
    | NegateNonNumber
    | NotNonBoolNumber
    | InvalidUnaryOperator(operator: TokenType)

  predicate IsArithmetic(op: TokenType) { op == Minus || op == Slash || op == Star || op == Plus }

  predicate IsComparison(op: TokenType) { op == TokenType.Greater || op == TokenType.GreaterEqual || op == TokenType.Less || op == LessEqual }

  predicate IsEquality(op: TokenType) { op == EqualEqual || op == BangEqual }

  /** Both values are of the same kind. */
  predicate SameKind(l: Value, r: Value)
  {
    (l.Number? && r.Number?) || (l.String? && r.String?) || (l.Bool? && r.Bool?) || (l.Nil? && r.Nil?)
  }

  /** The combinations the dispatch table defines: arithmetic on two numbers,
      `+` on two strings, comparison on two numbers, and equality on two
      values of the same kind. */
  predicate BinaryDefined(l: Value, op: TokenType, r: Value)
  {
    || (IsArithmetic(op) && l.Number? && r.Number?)
    || (op == Plus && l.String? && r.String?)
    || (IsComparison(op) && l.Number? && r.Number?)
    || (IsEquality(op) && SameKind(l, r))
  }

  /** Division is only evaluated with a non-zero divisor: IEEE infinities and
      NaN are not modelled. */
  predicate DivisorNonZero(l: Value, op: TokenType, r: Value)
  {
    op == Slash && l.Number? && r.Number? ==> r.number != 0.0
  }

  /** The arithmetic arms of interpret_binary: `- / * +` on two Numbers,
      and `+` on two Strings. */
  function Arithmetic(l: Value, op: TokenType, r: Value): Result<Value, EvalError>
    requires IsArithmetic(op) && DivisorNonZero(l, op, r)
  {
    match (l, r)
    case (Number(a), Number(b)) =>
      Ok(Value.Number(if op == Minus then a - b else if op == Slash then a / b else if op == Star then a * b else a + b))
    case (String(a), String(b)) => if op == Plus then Ok(Value.String(a + b)) else Err(InvalidOperands(l, op, r))
    case _ => Err(InvalidOperands(l, op, r))
  }

  /** The comparison arms: `> >= < <=` on two Numbers. */
  function Comparison(l: Value, op: TokenType, r: Value): Result<Value, EvalError>
    requires IsComparison(op)
  {
    match (l, r)
    case (Number(a), Number(b)) =>
      Ok(Bool(if op == TokenType.Greater then a > b else if op == GreaterEqual then a >= b else if op == TokenType.Less then a < b else a <= b))
    case _ => Err(InvalidOperands(l, op, r))
  }

  /** The equality arms: `==` and `!=` on two Numbers, two Strings, two Nils
      (always equal) or two Bools. */
  function Equality(l: Value, op: TokenType, r: Value): Result<Value, EvalError>
    requires IsEquality(op)
  {
    var equal :=
      match (l, r)
      case (Number(a), Number(b)) => Some(a == b)
      case (String(a), String(b)) => Some(a == b)
      case (Nil, Nil) => Some(true)
      case (Bool(a), Bool(b)) => Some(a == b)
      case _ => None;
    match equal
    case Some(e) => Ok(Bool(if op == EqualEqual then e else !e))
    case None => Err(InvalidOperands(l, op, r))
  }

  /** The match at the heart of interpret_binary, on already evaluated
      operands: it has a value exactly for the combinations BinaryDefined
      names, and every other combination is an error that carries the
      operands and the operator. */
  function ApplyBinary(l: Value, op: TokenType, r: Value): (res: Result<Value, EvalError>)
    requires DivisorNonZero(l, op, r)
    ensures res.Ok? <==> BinaryDefined(l, op, r)
    ensures res.Err? ==> res.error == InvalidOperands(l, op, r)
  {
    if IsArithmetic(op) then Arithmetic(l, op, r)
    else if IsComparison(op) then Comparison(l, op, r)
    else if IsEquality(op) then Equality(l, op, r)
    else Err(InvalidOperands(l, op, r))
  }

  /** Arithmetic yields a Number, except `+` on two Strings, which yields a
      String; comparison and equality yield a Bool. */
  lemma ResultKinds(l: Value, op: TokenType, r: Value)
    requires DivisorNonZero(l, op, r) && BinaryDefined(l, op, r)
    ensures IsArithmetic(op) && l.Number? ==> ApplyBinary(l, op, r).value.Number?
    ensures op == Plus && l.String? ==> ApplyBinary(l, op, r).value == Value.String(l.text + r.text)
    ensures IsComparison(op) || IsEquality(op) ==> ApplyBinary(l, op, r).value.Bool?
  {
  }

  /** interpret_unary's match, on the evaluated operand. */
  function ApplyUnary(op: TokenType, v: Value): (res: Result<Value, EvalError>)
    ensures res.Ok? <==> (op == Minus && v.Number?) || (op == Bang && (v.Bool? || v.Number?))
  {
    match op
    case Minus =>
      (match v
       case Number(n) => Ok(Value.Number(-n))
       case _ => Err(NegateNonNumber))
    case Bang =>
      (match v
       case Bool(b) => Ok(Bool(!b))
       case Number(n) => Ok(Bool(n == 0.0))
       case _ => Err(NotNonBoolNumber))
    case _ => Err(InvalidUnaryOperator(op))
  }

  function InterpretLiteral(literal: Ast.Literal): (v: Value)
    ensures literal.True? || literal.False? <==> v.Bool?
    ensures literal.Nil? <==> v.Nil?
    ensures literal.Number? <==> v.Number?
    ensures literal.String? <==> v.String?
    ensures literal.True? <==> v == Bool(true)
    ensures literal.False? <==> v == Bool(false)
    ensures literal.Number? ==> v.number == literal.number
    ensures literal.String? ==> v.text == literal.text
  {
    match literal
    case False => Bool(false)
    case True => Bool(true)
    case Number(n) => Value.Number(n)
    case String(s) => Value.String(s)
    case Nil => Value.Nil
  }

  /** No division in the tree is evaluated with a zero divisor. */
  predicate NoZeroDivisor(e: Ast.Expr)
    decreases e, 0
  {
    match e
    case Binary(left, operator, right) =>
      && NoZeroDivisor(left) && NoZeroDivisor(right)
      && (InterpretExpression(left).Ok? && InterpretExpression(right).Ok? ==>
            DivisorNonZero(InterpretExpression(left).value, operator.kind, InterpretExpression(right).value))
    case Grouping(inner) => NoZeroDivisor(inner)
    case Literal(_) => true
    case Unary(_, operand) => NoZeroDivisor(operand)
  }

  function InterpretExpression(e: Ast.Expr): (r: Result<Value, EvalError>)
    requires NoZeroDivisor(e)
    ensures e.Literal? ==> r.Ok?
    decreases e, 2
  {
    match e
    case Grouping(inner) => InterpretExpression(inner)
    case Unary(operator, operand) => InterpretUnary(operator, operand)
    case Binary(left, operator, right) => InterpretBinary(left, operator, right)
    case Literal(literal) => Ok(InterpretLiteral(literal))
  }

  /** The left operand is evaluated first and its error wins; then the right
      operand; then the dispatch table. */
  function InterpretBinary(left: Ast.Expr, operator: Token, right: Ast.Expr): (res: Result<Value, EvalError>)
    requires NoZeroDivisor(Ast.Binary(left, operator, right))
    ensures res.Ok? ==> InterpretExpression(left).Ok? && InterpretExpression(right).Ok?
    ensures res.Ok? && (IsComparison(operator.kind) || IsEquality(operator.kind)) ==> res.value.Bool?
    decreases Ast.Binary(left, operator, right), 1
  {
    match InterpretExpression(left)
    case Err(err) => Err(err)
    case Ok(l) =>
      match InterpretExpression(right)
      case Err(err) => Err(err)
      case Ok(r) => ApplyBinary(l, operator.kind, r)
  }

  function InterpretUnary(operator: Token, operand: Ast.Expr): (res: Result<Value, EvalError>)
    requires NoZeroDivisor(operand)
    ensures InterpretExpression(operand).Err? ==> res == InterpretExpression(operand)
    ensures res.Ok? ==> (operator.kind == Bang <==> res.value.Bool?) && (operator.kind == Minus <==> res.value.Number?)
    decreases Ast.Unary(operator, operand), 1
  {
    match InterpretExpression(operand)
    case Err(err) => Err(err)
    case Ok(v) => ApplyUnary(operator.kind, v)
  }

  /** An error of the left operand is the result, whatever the right operand
      does; an error of the right operand is the result when the left one
      has a value. */
  lemma ErrorsPropagateLeftFirst(left: Ast.Expr, operator: Token, right: Ast.Expr)
    requires NoZeroDivisor(Ast.Binary(left, operator, right))
    ensures InterpretExpression(left).Err? ==>
      InterpretExpression(Ast.Binary(left, operator, right)) == Err(InterpretExpression(left).error)
    ensures InterpretExpression(left).Ok? && InterpretExpression(right).Err? ==>
      InterpretExpression(Ast.Binary(left, operator, right)) == Err(InterpretExpression(right).error)
  {
  }

  /** A binary expression has a value exactly when both operands have one and
      the table defines their combination. */
  lemma BinaryValueIff(left: Ast.Expr, operator: Token, right: Ast.Expr)
    requires NoZeroDivisor(Ast.Binary(left, operator, right))
    ensures InterpretExpression(Ast.Binary(left, operator, right)).Ok? <==>
      && InterpretExpression(left).Ok? && InterpretExpression(right).Ok?
      && BinaryDefined(InterpretExpression(left).value, operator.kind, InterpretExpression(right).value)
  {
  }

  /** On two values of the same kind `==` is value equality and `!=` its
      negation; on values of different kinds both are errors. */
  lemma EqualityIsValueEquality(l: Value, r: Value)
    ensures SameKind(l, r) ==> ApplyBinary(l, EqualEqual, r) == Ok(Bool(l == r))
    ensures SameKind(l, r) ==> ApplyBinary(l, BangEqual, r) == Ok(Bool(l != r))
    ensures !SameKind(l, r) ==> ApplyBinary(l, EqualEqual, r).Err? && ApplyBinary(l, BangEqual, r).Err?
  {
  }

  /** `+` on two strings concatenates left then right; a string and a number
      do not add. */
  lemma StringConcatenation(a: string, b: string, n: real)
    ensures ApplyBinary(Value.String(a), Plus, Value.String(b)) == Ok(Value.String(a + b))
    ensures ApplyBinary(Value.String(a), Plus, Value.Number(n)).Err? && ApplyBinary(Value.Number(n), Plus, Value.String(a)).Err?
  {
  }

  /** Grouping is transparent. */
  lemma GroupingIsTransparent(e: Ast.Expr)
    requires NoZeroDivisor(e)
    ensures NoZeroDivisor(Ast.Grouping(e)) && InterpretExpression(Ast.Grouping(e)) == InterpretExpression(e)
  {
  }

  /** `-(-e)` is e for a numeric e, and `!!e` is e for a boolean e. */
  lemma DoubleNegation(op: Token, e: Ast.Expr)
    requires NoZeroDivisor(e)
    requires op.kind == Minus || op.kind == Bang
    requires InterpretExpression(e).Ok?
    requires op.kind == Minus ==> InterpretExpression(e).value.Number?
    requires op.kind == Bang ==> InterpretExpression(e).value.Bool?
    ensures NoZeroDivisor(Ast.Unary(op, Ast.Unary(op, e)))
    ensures InterpretExpression(Ast.Unary(op, Ast.Unary(op, e))) == InterpretExpression(e)
  {
    var v := InterpretExpression(e).value;
    assert InterpretExpression(Ast.Unary(op, e)) == ApplyUnary(op.kind, v);
  }

  /** `!` on a number is true exactly for zero, not Lox truthiness. */
  lemma BangOnNumber(n: real, s: string)
    ensures ApplyUnary(Bang, Value.Number(n)) == Ok(Bool(n == 0.0))
    ensures ApplyUnary(Bang, Value.Nil) == Err(NotNonBoolNumber)
    ensures ApplyUnary(Bang, Value.String(s)) == Err(NotNonBoolNumber)
  {
  }

  function Op(kind: TokenType, lexeme: string): Token
  {
    Token(kind, lexeme, None, 1)
  }

  function Num(n: real): Ast.Expr
  {
    Ast.Literal(Ast.Number(n))
  }

  /** 4 + 2 + 1 is 7. */
  lemma SumExample()
    ensures InterpretExpression(Ast.Binary(Ast.Binary(Num(4.0), Op(Plus, "+"), Num(2.0)), Op(Plus, "+"), Num(1.0)))
      == Ok(Value.Number(7.0))
  {
  }

  /** (3 * 6) - (7 / 2) is 14.5. */
  lemma PrecedenceExample(times: Token, minus: Token, divide: Token)
    requires times.kind == Star && minus.kind == Minus && divide.kind == Slash
    ensures var e := Ast.Binary(Ast.Binary(Num(3.0), times, Num(6.0)), minus, Ast.Binary(Num(7.0), divide, Num(2.0)));
      NoZeroDivisor(e) && InterpretExpression(e) == Ok(Value.Number(14.5))
  {
    assert forall n :: NoZeroDivisor(Num(n)) && InterpretExpression(Num(n)) == Ok(Value.Number(n));
    assert NoZeroDivisor(Ast.Binary(Num(7.0), divide, Num(2.0)));
    assert InterpretExpression(Ast.Binary(Num(3.0), times, Num(6.0))) == Ok(Value.Number(18.0));
    assert InterpretExpression(Ast.Binary(Num(7.0), divide, Num(2.0))) == Ok(Value.Number(3.5));
  }

  /** (6 * (-(-4))) is 24. */
  lemma NestedUnaryExample()
    ensures var e := Ast.Grouping(Ast.Binary(Num(6.0), Op(Star, "*"), Ast.Grouping(Ast.Unary(Op(Minus, "-"), Ast.Grouping(Ast.Unary(Op(Minus, "-"), Num(4.0)))))));
      NoZeroDivisor(e) && InterpretExpression(e) == Ok(Value.Number(24.0))
  {
  }

  /** nil == nil is true and nil != nil is false. */
  lemma NilEquality()
    ensures InterpretExpression(Ast.Binary(Ast.Literal(Ast.Nil), Op(EqualEqual, "=="), Ast.Literal(Ast.Nil))) == Ok(Bool(true))
    ensures InterpretExpression(Ast.Binary(Ast.Literal(Ast.Nil), Op(BangEqual, "!="), Ast.Literal(Ast.Nil))) == Ok(Bool(false))
  {
  }

  /** A string and a number do not compare equal; they are not comparable. */
  lemma MixedEqualityFails()
    ensures InterpretExpression(Ast.Binary(Ast.Literal(Ast.String("1")), Op(EqualEqual, "=="), Num(1.0)))
      == Err(InvalidOperands(Value.String("1"), EqualEqual, Value.Number(1.0)))
  {
  }
}
