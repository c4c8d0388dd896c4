/** The single-pass bytecode compiler of src/compiler.rs: a Pratt parser that
    pulls tokens from the scanner one at a time and appends (instruction,
    line) pairs and constants to a chunk, with panic-mode error recovery.

    The state the compiler threads through its calls is CState. The functions
    After... say what each compiler function leaves behind when it starts in
    a given state; the Compiler class runs the same steps on its fields and
    proves each method equal to its function. The scanner it owns is the
    Scanner class; its tokens, in the order scan_token hands them out, are
    ScanAll(source, 0, 1) followed by EOF again and again. */
module Compiler {
  import opened Wrappers
  import opened Scanner
  import opened Bytecode

  /** The binding powers of PRECEDENCE, loosest first. */
  const PrecNone: nat := 0
  const PrecAssignment: nat := 1
  const PrecOr: nat := 2
  const PrecAnd: nat := 3
  const PrecEquality: nat := 4
  const PrecComparison: nat := 5
  const PrecTerm: nat := 6
  const PrecFactor: nat := 7
  const PrecUnary: nat := 8
  const PrecCall: nat := 9
  const PrecPrimary: nat := 10

  /** The parse functions a rule can name. */
  datatype ParseFn = Grouping | Unary | Binary | ValueLiteral | Literal | Variable

  datatype Rule = Rule(prefix: Option<ParseFn>, infix: Option<ParseFn>, precedence: nat)

  /** get_rules: the Pratt table. Only binary operators have an infix rule,
      and exactly those have a precedence above none; EOF has no rule. */
  function GetRules(kind: TokenType): (r: Rule)
    ensures r.infix.Some? <==> r.precedence != PrecNone
    ensures r.infix.Some? ==> r.infix == Some(Binary) && PrecEquality <= r.precedence <= PrecFactor
    ensures kind == Eof ==> r == Rule(None, None, PrecNone)
  {
    if kind == LeftParen then Rule(Some(Grouping), None, PrecNone)
    else if kind == Minus then Rule(Some(Unary), Some(Binary), PrecTerm)
    else if kind == Plus then Rule(None, Some(Binary), PrecTerm)
    else if kind == Slash then Rule(None, Some(Binary), PrecFactor)
    else if kind == Star then Rule(None, Some(Binary), PrecFactor)
    else if kind == Bang then Rule(Some(Unary), None, PrecNone)
    else if kind == TokenType.String then Rule(Some(ValueLiteral), None, PrecNone)
    else if kind == Identifier then Rule(Some(Variable), None, PrecNone)
    else if kind == TokenType.Number then Rule(Some(ValueLiteral), None, PrecNone)
    else if kind == False then Rule(Some(Literal), None, PrecNone)
    else if kind == True then Rule(Some(Literal), None, PrecNone)
    else if kind == TokenType.Nil then Rule(Some(Literal), None, PrecNone)
    else if kind == BangEqual then Rule(None, Some(Binary), PrecEquality)
    else if kind == EqualEqual then Rule(None, Some(Binary), PrecEquality)
    else if kind == TokenType.Greater then Rule(None, Some(Binary), PrecComparison)
    else if kind == GreaterEqual then Rule(None, Some(Binary), PrecComparison)
    else if kind == TokenType.Less then Rule(None, Some(Binary), PrecComparison)
    else if kind == LessEqual then Rule(None, Some(Binary), PrecComparison)
    else Rule(None, None, PrecNone)
  }

  /** The precedence binary parses its right operand at: one level above
      the operator's own, so operators of one level associate to the left. */
  function OperandPrecedence(kind: TokenType): (p: nat)
    ensures p >= PrecAssignment
  {
    GetRules(kind).precedence + 1
  }

  /** The instructions binary emits after its right operand, as its match
      on the operator kind lists them. */
  function BinaryOps(kind: TokenType): (ops: seq<OpCode>)
    ensures |ops| <= 2
    ensures forall k | 0 <= k < |ops| :: OpWellFormed(ops[k], [])
  {
    if kind == Plus then [Add]
    else if kind == Minus then [Subtract]
    else if kind == Star then [Multiply]
    else if kind == Slash then [Divide]
    else if kind == BangEqual then [OpCode.Equal, Not]
    else if kind == EqualEqual then [OpCode.Equal]
    else if kind == TokenType.Less then [OpCode.Less]
    else if kind == GreaterEqual then [OpCode.Less, Not]
    else if kind == TokenType.Greater then [OpCode.Greater]
    else if kind == LessEqual then [OpCode.Greater, Not]
    else []
  }

  /** The kinds synchronize stops in front of: the start of a statement. */
  const SyncKinds: seq<TokenType> := [Class, Fun, Var, For, If, While, TokenType.Print, TokenType.Return]

  const ExpectVariableName := "Expect variable name."
  const ExpectSemicolonAfterVar := "Expect ';' after variable dec"
  const ExpectSemicolonAfterValue := "Expect ';' after value."
  const ExpectSemicolonAfterExpression := "Expect ';' after expression."
  const ExpectRightParen := "Excpect ')' after expression."
  const ExpectExpression := "Expect expression."
  const InvalidAssignmentTarget := "Invalid assignment target."

  /** What parse_error prints: the token's line and kind, and the message
      when there is one. */
  datatype Report = Report(line: nat, kind: TokenType, message: Option<string>)

  /** The compiler's fields; next is the index, in the token sequence, of
      the token the scanner hands out next, and reports is what parse_error
      has printed. */
  datatype CState = CState(
    current: Token, previous: Token, next: nat,
    hadError: bool, panicMode: bool, chunk: Chunk, reports: seq<Report>)

  /** The placeholder token compiler_initalize starts current and previous
      with. */
  const Placeholder := Token(TokenType.Nil, "", None, 0)

  /** compiler_initalize: nothing scanned, no error, an empty chunk. */
  function Initial(): CState
  {
    CState(Placeholder, Placeholder, 0, false, false, EmptyChunk, [])
  }

  /** scan_token over the token sequence: the token at next, and the final
      EOF again once the sequence is used up. */
  function ScanAt(ts: seq<Token>, next: nat): Token
    requires Tokens(ts)
  {
    if next < |ts| then ts[next] else ts[|ts| - 1]
  }

  function NextAfter(ts: seq<Token>, next: nat): nat
  {
    if next < |ts| then next + 1 else next
  }

  /** current is the token last scanned. */
  predicate Cursor(ts: seq<Token>, s: CState)
  {
    && Tokens(ts)
    && s.next <= |ts|
    && (s.next >= 1 ==> s.current == ts[s.next - 1])
  }

  /** What holds between any two compiler steps: current is the token last
      scanned and never an error token. */
  predicate Inv(ts: seq<Token>, s: CState)
  {
    Cursor(ts, s) && s.current.kind != TokenError
  }

  /** Tokens left to scan, plus one while current is not EOF: every advance
      past a token other than EOF lowers it. */
  function Measure(ts: seq<Token>, s: CState): nat
  {
    (if s.next <= |ts| then |ts| - s.next else 0) + (if s.current.kind == Eof then 0 else 1)
  }

  /** What every compiler step keeps: the invariant, the cursor and the
      measure never go back, code and constants are only appended to, a
      chunk whose pool indices are valid stays so, had_error is never
      cleared and reports are only appended. */
  predicate Grows(ts: seq<Token>, s: CState, r: CState)
  {
    && Inv(ts, r)
    && s.next <= r.next
    && Measure(ts, r) <= Measure(ts, s)
    && s.chunk.code <= r.chunk.code
    && s.chunk.constant <= r.chunk.constant
    && (WellFormed(s.chunk) ==> WellFormed(r.chunk))
    && (s.hadError ==> r.hadError)
    && s.reports <= r.reports
  }

  /** parse_error: nothing while panicking; otherwise both flags are set and
      one report is printed. */
  function AfterParseError(s: CState, token: Token, message: Option<string>): CState
  {
    if s.panicMode then s
    else s.(panicMode := true, hadError := true, reports := s.reports + [Report(token.line, token.kind, message)])
  }

  /** parse_error_token: the message is the error token's string literal. */
  function AfterParseErrorToken(s: CState, token: Token): (r: CState)
    ensures !s.panicMode ==>
      |r.reports| == |s.reports| + 1 &&
      r.reports[|s.reports|].message == (if token.literal.Some? && token.literal.value.Str? then Some(token.literal.value.text) else None)
  {
    var message := match token.literal
      case Some(Str(text)) => Some(text)
      case _ => None;
    AfterParseError(s, token, message)
  }

  /** The loop of advance: while current is an error token, report it and
      scan the next one. */
  function SkipErrors(ts: seq<Token>, s: CState): (r: CState)
    requires Cursor(ts, s) && s.next >= 1
    ensures Inv(ts, r) && s.next <= r.next
    ensures r.previous == s.previous && r.chunk == s.chunk
    ensures (s.hadError ==> r.hadError) && s.reports <= r.reports
    decreases |ts| - s.next
  {
    if s.current.kind == TokenError then
      SkipErrors(ts, SkipOne(ts, s))
    else
      s
  }

  /** One round of the loop of advance: the error token at current is
      reported and the next token scanned. An error token is never the last
      token, so the next one exists. */
  function SkipOne(ts: seq<Token>, s: CState): (r: CState)
    requires Cursor(ts, s) && s.next >= 1 && s.current.kind == TokenError
    ensures s.next < |ts| && Cursor(ts, r) && r.next == s.next + 1
  {
    AfterParseErrorToken(s, s.current).(current := ts[s.next], next := s.next + 1)
  }

  /** advance: previous takes current, then tokens are scanned until one is
      not an error token. */
  function AfterAdvance(ts: seq<Token>, s: CState): (r: CState)
    requires Inv(ts, s)
    ensures Grows(ts, s, r) && r.previous == s.current && r.chunk == s.chunk
    ensures s.current.kind != Eof ==> Measure(ts, r) < Measure(ts, s)
  {
    SkipErrors(ts, s.(previous := s.current, current := ScanAt(ts, s.next), next := NextAfter(ts, s.next)))
  }

  /** token_match: advance past current when it has the kind. */
  function AfterTokenMatch(ts: seq<Token>, s: CState, kind: TokenType): (r: (bool, CState))
    requires Inv(ts, s)
    ensures Grows(ts, s, r.1)
    ensures r.0 <==> s.current.kind == kind
    ensures !r.0 ==> r.1 == s
    ensures r.0 && kind != Eof ==> Measure(ts, r.1) < Measure(ts, s)
  {
    if s.current.kind == kind then (true, AfterAdvance(ts, s)) else (false, s)
  }

  /** consume: advance past current when it has the kind, else report. */
  function AfterConsume(ts: seq<Token>, s: CState, kind: TokenType, message: string): (r: CState)
    requires Inv(ts, s)
    ensures Grows(ts, s, r) && r.chunk == s.chunk
  {
    if s.current.kind == kind then AfterAdvance(ts, s)
    else ParseErrorGrows(ts, s, s.current, Some(message)); AfterParseError(s, s.current, Some(message))
  }

  /** emit_byte: appends op with the line of previous. */
  function AfterEmitByte(s: CState, op: OpCode): CState
  {
    s.(chunk := Chunk(s.chunk.code + [(op, s.previous.line)], s.chunk.constant))
  }

  /** emit_constant: appends v to the pool and a Constant naming its index. */
  function AfterEmitConstant(s: CState, v: Value): CState
  {
    var constant := s.chunk.constant + [v];
    s.(chunk := Chunk(s.chunk.code + [(Constant(|constant| - 1), s.previous.line)], constant))
  }

  lemma EmitByteGrows(ts: seq<Token>, s: CState, op: OpCode)
    requires Inv(ts, s) && OpWellFormed(op, s.chunk.constant)
    ensures Grows(ts, s, AfterEmitByte(s, op))
  {
    if WellFormed(s.chunk) {
      WellFormedPush(s.chunk, op, s.previous.line);
    }
  }

  /** Pushing a constant without an instruction, as parse_variable does. */
  lemma PushConstantGrows(ts: seq<Token>, s: CState, v: Value)
    requires Inv(ts, s)
    ensures Grows(ts, s, s.(chunk := Chunk(s.chunk.code, s.chunk.constant + [v])))
  {
    if WellFormed(s.chunk) {
      WellFormedPool(s.chunk.code, s.chunk.constant, v);
    }
  }

  lemma EmitConstantGrows(ts: seq<Token>, s: CState, v: Value)
    requires Inv(ts, s)
    ensures Grows(ts, s, AfterEmitConstant(s, v))
  {
    var constant := s.chunk.constant + [v];
    if WellFormed(s.chunk) {
      WellFormedPool(s.chunk.code, s.chunk.constant, v);
      WellFormedPush(Chunk(s.chunk.code, constant), Constant(|constant| - 1), s.previous.line);
    }
  }

  lemma ParseErrorGrows(ts: seq<Token>, s: CState, token: Token, message: Option<string>)
    requires Inv(ts, s)
    ensures Grows(ts, s, AfterParseError(s, token, message)) && AfterParseError(s, token, message).chunk == s.chunk
  {
  }

  lemma GrowsTrans(ts: seq<Token>, s: CState, m: CState, r: CState)
    requires Grows(ts, s, m) && Grows(ts, m, r)
    ensures Grows(ts, s, r)
  {
  }

  /** parse_precedence: the prefix rule of the token just advanced over,
      then infix rules while current binds at least as tightly as
      precedence; with no prefix rule, "Expect expression.". */
  function AfterParsePrecedence(ts: seq<Token>, s: CState, precedence: nat): (r: CState)
    requires Inv(ts, s) && precedence >= PrecAssignment
    ensures Grows(ts, s, r)
    ensures s.current.kind != Eof ==> Measure(ts, r) < Measure(ts, s)
    ensures r.panicMode || GetRules(r.current.kind).precedence < precedence
    decreases Measure(ts, s), 0
  {
    var a := AfterAdvance(ts, s);
    match GetRules(a.previous.kind).prefix
    case None =>
      ParseErrorGrows(ts, a, a.previous, Some(ExpectExpression));
      GrowsTrans(ts, s, a, AfterParseError(a, a.previous, Some(ExpectExpression)));
      AfterParseError(a, a.previous, Some(ExpectExpression))
    case Some(prefix) =>
      var canAssign := precedence <= PrecAssignment;
      var b := AfterRule(ts, a, prefix, canAssign);
      var r := AfterInfixLoop(ts, b, precedence, canAssign);
      GrowsTrans(ts, s, a, b);
      GrowsTrans(ts, s, b, r);
      r
  }

  /** The infix loop of parse_precedence: infix steps while current binds
      at least as tightly as precedence. */
  function AfterInfixLoop(ts: seq<Token>, s: CState, precedence: nat, canAssign: bool): (r: CState)
    requires Inv(ts, s) && precedence >= PrecAssignment
    ensures Grows(ts, s, r)
    ensures GetRules(r.current.kind).precedence < precedence
    decreases Measure(ts, s), 1
  {
    if precedence <= GetRules(s.current.kind).precedence then
      AfterInfixLoop(ts, AfterInfixStep(ts, s, canAssign), precedence, canAssign)
    else
      s
  }

  /** One pass of that loop: advance over the operator and run its infix
      rule; then, when assignment is allowed, a `=` is advanced over and
      reported as an invalid assignment target. */
  function AfterInfixStep(ts: seq<Token>, s: CState, canAssign: bool): (r: CState)
    requires Inv(ts, s) && s.current.kind != Eof
    ensures Grows(ts, s, r) && Measure(ts, r) < Measure(ts, s)
    decreases Measure(ts, s), 0
  {
    var a := AfterAdvance(ts, s);
    var b := match GetRules(a.previous.kind).infix
      case None => a
      case Some(infix) => AfterRule(ts, a, infix, canAssign);
    AfterAssignCheck(ts, b, canAssign)
  }

  /** The end of an infix step: when assignment is allowed, a `=` is
      advanced over and reported as an invalid assignment target. */
  function AfterAssignCheck(ts: seq<Token>, s: CState, canAssign: bool): (r: CState)
    requires Inv(ts, s)
    ensures Grows(ts, s, r)
  {
    if canAssign && s.current.kind == TokenType.Equal then
      var a := AfterAdvance(ts, s);
      ParseErrorGrows(ts, a, a.current, Some(InvalidAssignmentTarget));
      AfterParseError(a, a.current, Some(InvalidAssignmentTarget))
    else
      s
  }

  /** Calling the parse function a rule names. */
  function AfterRule(ts: seq<Token>, s: CState, fn: ParseFn, canAssign: bool): (r: CState)
    requires Inv(ts, s)
    ensures Grows(ts, s, r)
    decreases Measure(ts, s), 3
  {
    match fn
    case Grouping => AfterGrouping(ts, s)
    case Unary => AfterUnary(ts, s)
    case Binary => AfterBinary(ts, s)
    case ValueLiteral => AfterValueLiteral(ts, s)
    case Literal => AfterLiteral(ts, s)
    case Variable => AfterNamedVariable(ts, s, s.previous, canAssign)
  }

  /** expression: parse_precedence at assignment precedence. */
  function AfterExpression(ts: seq<Token>, s: CState): (r: CState)
    requires Inv(ts, s)
    ensures Grows(ts, s, r)
    ensures s.current.kind != Eof ==> Measure(ts, r) < Measure(ts, s)
    decreases Measure(ts, s), 1
  {
    AfterParsePrecedence(ts, s, PrecAssignment)
  }

  /** grouping: an expression, then `)`. */
  function AfterGrouping(ts: seq<Token>, s: CState): (r: CState)
    requires Inv(ts, s)
    ensures Grows(ts, s, r)
    decreases Measure(ts, s), 2
  {
    AfterConsume(ts, AfterExpression(ts, s), RightParen, ExpectRightParen)
  }

  /** value_literal: a constant for the number or string literal of
      previous; nothing when it has none. */
  function AfterValueLiteral(ts: seq<Token>, s: CState): (r: CState)
    requires Inv(ts, s)
    ensures Grows(ts, s, r)
  {
    match s.previous.literal
    case Some(Num(n)) => EmitConstantGrows(ts, s, Value.Number(n)); AfterEmitConstant(s, Value.Number(n))
    case Some(Str(text)) => EmitConstantGrows(ts, s, Value.String(text)); AfterEmitConstant(s, Value.String(text))
    case None => s
  }

  /** unary: the operand at unary precedence, then Negate or Not. */
  function AfterUnary(ts: seq<Token>, s: CState): (r: CState)
    requires Inv(ts, s)
    ensures Grows(ts, s, r)
    decreases Measure(ts, s), 1
  {
    var operand := AfterParsePrecedence(ts, s, PrecUnary);
    EmitUnary(ts, operand, s.previous.kind)
  }

  /** The instruction unary emits for its operator. */
  function EmitUnary(ts: seq<Token>, s: CState, operator: TokenType): (r: CState)
    requires Inv(ts, s)
    ensures Grows(ts, s, r)
  {
    match operator
    case Minus => EmitByteGrows(ts, s, Negate); AfterEmitByte(s, Negate)
    case Bang => EmitByteGrows(ts, s, Not); AfterEmitByte(s, Not)
    case _ => s
  }

  /** binary: the right operand one level tighter than the operator, then
      the operator's instructions. */
  function AfterBinary(ts: seq<Token>, s: CState): (r: CState)
    requires Inv(ts, s)
    ensures Grows(ts, s, r)
    decreases Measure(ts, s), 1
  {
    var operator := s.previous.kind;
    var right := AfterParsePrecedence(ts, s, OperandPrecedence(operator));
    AfterEmitOperator(ts, right, operator)
  }

  /** AfterBinary unfolded once: the right operand, then the operator. */
  lemma BinaryUnfold(ts: seq<Token>, s: CState)
    requires Inv(ts, s)
    ensures AfterBinary(ts, s) == AfterEmitOperator(ts, AfterParsePrecedence(ts, s, OperandPrecedence(s.previous.kind)), s.previous.kind)
  {
  }

  /** The instructions binary emits for the operator: one, two or none. */
  function AfterEmitOperator(ts: seq<Token>, s: CState, operator: TokenType): (r: CState)
    requires Inv(ts, s)
    ensures Grows(ts, s, r)
  {
    var ops := BinaryOps(operator);
    if |ops| == 1 then
      EmitByteGrows(ts, s, ops[0]);
      AfterEmitByte(s, ops[0])
    else if |ops| == 2 then
      EmitBytesGrows(ts, s, ops[0], ops[1]);
      AfterEmitByte(AfterEmitByte(s, ops[0]), ops[1])
    else
      s
  }

  lemma EmitBytesGrows(ts: seq<Token>, s: CState, op1: OpCode, op2: OpCode)
    requires Inv(ts, s) && OpWellFormed(op1, s.chunk.constant) && OpWellFormed(op2, s.chunk.constant)
    ensures Grows(ts, s, AfterEmitByte(AfterEmitByte(s, op1), op2))
  {
    EmitByteGrows(ts, s, op1);
    EmitByteGrows(ts, AfterEmitByte(s, op1), op2);
  }

  /** literal: a constant for false, nil or true. */
  function AfterLiteral(ts: seq<Token>, s: CState): (r: CState)
    requires Inv(ts, s)
    ensures Grows(ts, s, r)
  {
    match s.previous.kind
    case False => EmitConstantGrows(ts, s, Bool(false)); AfterEmitConstant(s, Bool(false))
    case Nil => EmitConstantGrows(ts, s, Value.Nil); AfterEmitConstant(s, Value.Nil)
    case True => EmitConstantGrows(ts, s, Bool(true)); AfterEmitConstant(s, Bool(true))
    case _ => s
  }

  /** named_variable: `=` is matched first; only when assignment is allowed
      does an expression and SetGlobal follow, otherwise GetGlobal. Both
      carry the name's lexeme. */
  function AfterNamedVariable(ts: seq<Token>, s: CState, token: Token, canAssign: bool): (r: CState)
    requires Inv(ts, s)
    ensures Grows(ts, s, r)
    decreases Measure(ts, s), 2
  {
    var name := token.lexeme;
    var (matched, a) := AfterTokenMatch(ts, s, TokenType.Equal);
    if matched && canAssign then
      var b := AfterExpression(ts, a);
      EmitByteGrows(ts, b, SetGlobal(name));
      AfterEmitByte(b, SetGlobal(name))
    else
      EmitByteGrows(ts, a, GetGlobal(name));
      AfterEmitByte(a, GetGlobal(name))
  }

  /** synchronize: panic mode is cleared, then tokens are skipped until
      previous is `;`, current starts a statement, or current is EOF. */
  function AfterSynchronize(ts: seq<Token>, s: CState): (r: CState)
    requires Inv(ts, s)
    ensures Grows(ts, s, r) && r.chunk == s.chunk
  {
    SyncLoop(ts, s.(panicMode := false))
  }

  function SyncLoop(ts: seq<Token>, s: CState): (r: CState)
    requires Inv(ts, s)
    ensures Grows(ts, s, r) && r.chunk == s.chunk
    ensures r.current.kind == Eof || r.previous.kind == Semicolon || r.current.kind in SyncKinds
    decreases Measure(ts, s)
  {
    if s.current.kind == Eof then s
    else if s.previous.kind == Semicolon then s
    else if s.current.kind in SyncKinds then s
    else SyncLoop(ts, AfterAdvance(ts, s))
  }

  /** parse_variable: the name is consumed and the lexeme of previous goes
      into the pool; its index is returned. */
  function AfterParseVariable(ts: seq<Token>, s: CState, message: string): (r: (nat, CState))
    requires Inv(ts, s)
    ensures Grows(ts, s, r.1)
    ensures r.0 < |r.1.chunk.constant| && r.1.chunk.constant[r.0].String?
  {
    var a := AfterConsume(ts, s, Identifier, message);
    var constant := a.chunk.constant + [Value.String(a.previous.lexeme)];
    var b := a.(chunk := Chunk(a.chunk.code, constant));
    PushConstantGrows(ts, a, Value.String(a.previous.lexeme));
    (|constant| - 1, b)
  }

  /** declaration_var: the name, then the initializer or a nil constant,
      then `;`, then DefineGlobal of the name's index. */
  function AfterVarDeclaration(ts: seq<Token>, s: CState): (r: CState)
    requires Inv(ts, s)
    ensures Grows(ts, s, r)
  {
    var (global, a) := AfterParseVariable(ts, s, ExpectVariableName);
    var (initialized, b) := AfterTokenMatch(ts, a, TokenType.Equal);
    var c := if initialized then AfterExpression(ts, b) else (EmitConstantGrows(ts, b, Value.Nil); AfterEmitConstant(b, Value.Nil));
    var d := AfterConsume(ts, c, Semicolon, ExpectSemicolonAfterVar);
    GrowsTrans(ts, a, b, c);
    GrowsTrans(ts, a, c, d);
    assert d.chunk.constant[global] == a.chunk.constant[global];
    var e := AfterEmitByte(d, DefineGlobal(global));
    EmitByteGrows(ts, d, DefineGlobal(global));
    GrowsTrans(ts, a, d, e);
    GrowsTrans(ts, s, a, e);
    e
  }

  /** statement_print: an expression, `;`, then Print. */
  function AfterPrintStatement(ts: seq<Token>, s: CState): (r: CState)
    requires Inv(ts, s)
    ensures Grows(ts, s, r)
    ensures s.current.kind != Eof ==> Measure(ts, r) < Measure(ts, s)
  {
    var a := AfterConsume(ts, AfterExpression(ts, s), Semicolon, ExpectSemicolonAfterValue);
    EmitByteGrows(ts, a, OpCode.Print);
    AfterEmitByte(a, OpCode.Print)
  }

  /** statement_expression: an expression, `;`, then Pop. */
  function AfterExpressionStatement(ts: seq<Token>, s: CState): (r: CState)
    requires Inv(ts, s)
    ensures Grows(ts, s, r)
    ensures s.current.kind != Eof ==> Measure(ts, r) < Measure(ts, s)
  {
    var a := AfterConsume(ts, AfterExpression(ts, s), Semicolon, ExpectSemicolonAfterExpression);
    EmitByteGrows(ts, a, Pop);
    AfterEmitByte(a, Pop)
  }

  /** statement: a print statement after `print`, else an expression
      statement. */
  function AfterStatement(ts: seq<Token>, s: CState): (r: CState)
    requires Inv(ts, s)
    ensures Grows(ts, s, r)
    ensures s.current.kind != Eof ==> Measure(ts, r) < Measure(ts, s)
  {
    var (isPrint, a) := AfterTokenMatch(ts, s, TokenType.Print);
    if isPrint then AfterPrintStatement(ts, a) else AfterExpressionStatement(ts, a)
  }

  /** declaration: a var declaration after `var`, else a statement; then
      synchronize when an error left the compiler panicking. */
  function AfterDeclaration(ts: seq<Token>, s: CState): (r: CState)
    requires Inv(ts, s)
    ensures Grows(ts, s, r)
    ensures s.current.kind != Eof ==> Measure(ts, r) < Measure(ts, s)
  {
    var (isVar, a) := AfterTokenMatch(ts, s, Var);
    var b := if isVar then AfterVarDeclaration(ts, a) else AfterStatement(ts, a);
    GrowsTrans(ts, s, a, b);
    if b.panicMode then (GrowsTrans(ts, s, b, AfterSynchronize(ts, b)); AfterSynchronize(ts, b)) else b
  }

  /** The loop of compile: declarations until current is EOF. */
  function DeclarationsLoop(ts: seq<Token>, s: CState): (r: CState)
    requires Inv(ts, s)
    ensures Grows(ts, s, r)
    decreases Measure(ts, s)
  {
    var (done, a) := AfterTokenMatch(ts, s, Eof);
    if done then a else DeclarationsLoop(ts, AfterDeclaration(ts, a))
  }

  /** compile: advance, all declarations, then end_compiler's Return. The
      chunk is returned whether or not an error was reported. */
  function Compiled(ts: seq<Token>): (chunk: Chunk)
    requires Tokens(ts)
    ensures WellFormed(chunk)
    ensures |chunk.code| > 0 && chunk.code[|chunk.code| - 1].0 == OpCode.Return
  {
    var s := DeclarationsLoop(ts, AfterAdvance(ts, Initial()));
    EmitByteGrows(ts, s, OpCode.Return);
    AfterEmitByte(s, OpCode.Return).chunk
  }

  /** The compiler: the fields of struct Compiler. The scanner it owns is
      represented by the tokens it hands out, in order, and the count next
      of those handed out so far. */
  class Compiler {
    var current: Token
    var previous: Token
    var hadError: bool
    var panicMode: bool
    var chunk: Chunk
    const tokens: seq<Token>
    var next: nat
    /** What parse_error has printed, in order. */
    var reports: seq<Report>

    function State(): CState
      reads this
    {
      CState(current, previous, next, hadError, panicMode, chunk, reports)
    }

    ghost predicate Valid()
      reads this
    {
      Inv(tokens, State())
    }

    /** compiler_initalize: placeholder tokens, no error and an empty
        chunk, over the tokens of the scanner. */
    constructor (tokens: seq<Token>)
      requires Tokens(tokens)
      ensures Valid() && State() == Initial() && this.tokens == tokens
    {
      current := Placeholder;
      previous := Placeholder;
      hadError := false;
      panicMode := false;
      chunk := EmptyChunk;
      this.tokens := tokens;
      next := 0;
      reports := [];
    }

    /** The scanner's scan_token: the next token of the sequence, or the
        final EOF again at the end. */
    method ScanToken() returns (t: Token)
      requires Tokens(tokens) && next <= |tokens|
      modifies this`next
      ensures t == ScanAt(tokens, old(next)) && next == NextAfter(tokens, old(next))
    {
      if next < |tokens| {
        t := tokens[next];
        next := next + 1;
      } else {
        t := tokens[|tokens| - 1];
      }
    }

    /** parse_error: nothing while panicking; otherwise both flags are set
        and the report is printed. */
    method ParseError(token: Token, message: Option<string>)
      modifies this`panicMode, this`hadError, this`reports
      ensures State() == AfterParseError(old(State()), token, message)
      ensures old(Valid()) ==> Valid()
    {
      if panicMode {
        return;
      }
      panicMode := true;
      reports := reports + [Report(token.line, token.kind, message)];
      hadError := true;
    }

    /** parse_error_token: reports an error token with its string literal
        as the message. */
    method ParseErrorToken(token: Token)
      modifies this`panicMode, this`hadError, this`reports
      ensures State() == AfterParseErrorToken(old(State()), token)
    {
      match token.literal {
        case Some(Str(text)) =>
          ParseError(token, Some(text));
          return;
        case _ =>
      }
      ParseError(token, None);
    }

    /** advance: previous takes current, then tokens are scanned, each error
        token being reported, until one is not an error token. */
    method Advance()
      requires Valid()
      modifies this
      ensures Valid() && State() == AfterAdvance(tokens, old(State()))
    {
      ghost var s := State();
      previous := current;
      current := ScanToken();
      SkipErrorTokens();
    }

    /** The loop of advance: while current is an error token, report it and
        scan the next one. */
    method SkipErrorTokens()
      requires Cursor(tokens, State()) && next >= 1
      modifies this
      ensures State() == SkipErrors(tokens, old(State()))
    {
      while current.kind == TokenError
        invariant Cursor(tokens, State()) && 1 <= next
        invariant SkipErrors(tokens, State()) == SkipErrors(tokens, old(State()))
        decreases |tokens| - next
      {
        ghost var e := State();
        ParseErrorToken(current);
        current := ScanToken();
        assert State() == SkipOne(tokens, e);
      }
    }

    /** consume: advance past current when it has the kind, else report
        the message at current. */
    method Consume(kind: TokenType, message: string)
      requires Valid()
      modifies this
      ensures Valid() && State() == AfterConsume(tokens, old(State()), kind, message)
    {
      if current.kind == kind {
        Advance();
        return;
      }
      ParseError(current, Some(message));
    }

    /** token_match: advance past current when it has the kind. */
    method TokenMatch(kind: TokenType) returns (matched: bool)
      requires Valid()
      modifies this
      ensures Valid() && (matched, State()) == AfterTokenMatch(tokens, old(State()), kind)
    {
      if current.kind == kind {
        Advance();
        return true;
      }
      return false;
    }

    method ChunkWrite(op: OpCode, line: nat)
      modifies this`chunk
      ensures chunk == Chunk(old(chunk.code) + [(op, line)], old(chunk.constant))
    {
      chunk := Chunk(chunk.code + [(op, line)], chunk.constant);
    }

    /** emit_byte: appends op with the line of previous. */
    method EmitByte(op: OpCode)
      requires Valid()
      modifies this`chunk
      ensures Valid() && State() == AfterEmitByte(old(State()), op)
    {
      ChunkWrite(op, previous.line);
    }

    method EmitBytes(op1: OpCode, op2: OpCode)
      requires Valid()
      modifies this`chunk
      ensures Valid() && State() == AfterEmitByte(AfterEmitByte(old(State()), op1), op2)
    {
      EmitByte(op1);
      EmitByte(op2);
    }

    /** emit_constant: pushes v and emits Constant with its index. */
    method EmitConstant(v: Value)
      requires Valid()
      modifies this`chunk
      ensures Valid() && State() == AfterEmitConstant(old(State()), v)
    {
      EmitConstantGrows(tokens, State(), v);
      chunk := Chunk(chunk.code, chunk.constant + [v]);
      ChunkWrite(Constant(|chunk.constant| - 1), previous.line);
    }

    /** end_compiler: the final Return. */
    method EndCompiler()
      requires Valid()
      modifies this`chunk
      ensures Valid() && State() == AfterEmitByte(old(State()), OpCode.Return)
    {
      EmitByte(OpCode.Return);
    }

    /** parse_precedence: the prefix rule of the token advanced over, then
        infix rules while current binds at least as tightly. */
    method ParsePrecedence(precedence: nat)
      requires Valid() && precedence >= PrecAssignment
      modifies this
      ensures Valid() && State() == AfterParsePrecedence(tokens, old(State()), precedence)
      decreases Measure(tokens, State()), 0
    {
      Advance();
      var prefixRule := GetRules(previous.kind).prefix;
      match prefixRule {
        case None =>
          ParseError(previous, Some(ExpectExpression));
        case Some(prefix) =>
          var canAssign := precedence <= PrecAssignment;
          ApplyRule(prefix, canAssign);
          while precedence <= GetRules(current.kind).precedence
            invariant Valid()
            invariant AfterInfixLoop(tokens, State(), precedence, canAssign)
              == AfterParsePrecedence(tokens, old(State()), precedence)
            invariant Measure(tokens, State()) < old(Measure(tokens, State()))
            decreases Measure(tokens, State())
          {
            InfixStep(canAssign);
          }
      }
    }

    /** One pass of the infix loop of parse_precedence. */
    method InfixStep(canAssign: bool)
      requires Valid() && current.kind != Eof
      modifies this
      ensures Valid() && State() == AfterInfixStep(tokens, old(State()), canAssign)
      decreases Measure(tokens, State()), 0
    {
      Advance();
      var infixRule := GetRules(previous.kind).infix;
      match infixRule {
        case Some(infix) => ApplyRule(infix, canAssign);
        case None =>
      }
      if canAssign {
        var matched := TokenMatch(TokenType.Equal);
        if matched {
          ParseError(current, Some(InvalidAssignmentTarget));
        }
      }
    }

    /** Calls the parse function a rule names. */
    method ApplyRule(fn: ParseFn, canAssign: bool)
      requires Valid()
      modifies this
      ensures Valid() && State() == AfterRule(tokens, old(State()), fn, canAssign)
      decreases Measure(tokens, State()), 3
    {
      match fn
      case Grouping => Grouping(canAssign);
      case Unary => Unary(canAssign);
      case Binary => Binary(canAssign);
      case ValueLiteral => ValueLiteral(canAssign);
      case Literal => Literal(canAssign);
      case Variable => Variable(canAssign);
    }

    /** expression: parse_precedence at assignment precedence. */
    method Expression()
      requires Valid()
      modifies this
      ensures Valid() && State() == AfterExpression(tokens, old(State()))
      decreases Measure(tokens, State()), 1
    {
      ParsePrecedence(PrecAssignment);
    }

    /** grouping: an expression, then `)`. */
    method Grouping(canAssign: bool)
      requires Valid()
      modifies this
      ensures Valid() && State() == AfterGrouping(tokens, old(State()))
      decreases Measure(tokens, State()), 2
    {
      Expression();
      Consume(RightParen, ExpectRightParen);
    }

    /** value_literal: a constant for previous's number or string literal. */
    method ValueLiteral(canAssign: bool)
      requires Valid()
      modifies this`chunk
      ensures Valid() && State() == AfterValueLiteral(tokens, old(State()))
    {
      match previous.literal {
        case Some(Num(n)) => EmitConstant(Value.Number(n));
        case Some(Str(text)) => EmitConstant(Value.String(text));
        case None =>
      }
    }

    /** unary: the operand at unary precedence, then Negate or Not. */
    method Unary(canAssign: bool)
      requires Valid()
      modifies this
      ensures Valid() && State() == AfterUnary(tokens, old(State()))
      decreases Measure(tokens, State()), 1
    {
      var operator := previous.kind;
      ParsePrecedence(PrecUnary);
      EmitUnaryOp(operator);
    }

    /** The match at the end of unary: Negate for `-`, Not for `!`. */
    method EmitUnaryOp(operator: TokenType)
      requires Valid()
      modifies this`chunk
      ensures Valid() && State() == EmitUnary(tokens, old(State()), operator)
    {
      if operator == Minus {
        EmitByte(Negate);
      } else if operator == Bang {
        EmitByte(Not);
      }
    }

    /** binary: the right operand one level tighter than the operator, then
        the operator's instructions. */
    method Binary(canAssign: bool)
      requires Valid()
      modifies this
      ensures Valid() && State() == AfterBinary(tokens, old(State()))
      decreases Measure(tokens, State()), 1
    {
      BinaryUnfold(tokens, State());
      var operatorType := previous.kind;
      ParsePrecedence(OperandPrecedence(operatorType));
      EmitOperator(operatorType);
    }

    /** The match at the end of binary: the instructions for the operator. */
    method EmitOperator(operatorType: TokenType)
      requires Valid()
      modifies this`chunk
      ensures Valid() && State() == AfterEmitOperator(tokens, old(State()), operatorType)
    {
      var ops := BinaryOps(operatorType);
      if |ops| == 1 {
        EmitByte(ops[0]);
      } else if |ops| == 2 {
        EmitBytes(ops[0], ops[1]);
      }
    }

    /** literal: a constant for false, nil or true. */
    method Literal(canAssign: bool)
      requires Valid()
      modifies this`chunk
      ensures Valid() && State() == AfterLiteral(tokens, old(State()))
    {
      var kind := previous.kind;
      if kind == False {
        EmitConstant(Bool(false));
      } else if kind == TokenType.Nil {
        EmitConstant(Value.Nil);
      } else if kind == True {
        EmitConstant(Bool(true));
      }
    }

    /** variable: named_variable on previous. */
    method Variable(canAssign: bool)
      requires Valid()
      modifies this
      ensures Valid() && State() == AfterNamedVariable(tokens, old(State()), old(previous), canAssign)
      decreases Measure(tokens, State()), 2
    {
      NamedVariable(previous, canAssign);
    }

    /** named_variable: `=` is matched before canAssign is looked at. */
    method NamedVariable(token: Token, canAssign: bool)
      requires Valid()
      modifies this
      ensures Valid() && State() == AfterNamedVariable(tokens, old(State()), token, canAssign)
      decreases Measure(tokens, State()), 1
    {
      var arg := token.lexeme;
      var matched := TokenMatch(TokenType.Equal);
      if matched && canAssign {
        Expression();
        EmitByte(SetGlobal(arg));
      } else {
        EmitByte(GetGlobal(arg));
      }
    }

    /** synchronize: clears panic mode, then advances until previous is
        `;`, current starts a statement, or current is EOF. */
    method Synchronize()
      requires Valid()
      modifies this
      ensures Valid() && State() == AfterSynchronize(tokens, old(State()))
    {
      panicMode := false;
      while current.kind != Eof
        invariant Valid()
        invariant SyncLoop(tokens, State()) == AfterSynchronize(tokens, old(State()))
        decreases Measure(tokens, State())
      {
        if previous.kind == Semicolon {
          return;
        }
        if current.kind in SyncKinds {
          return;
        }
        Advance();
      }
    }

    /** parse_variable: consumes the name and pushes its lexeme into the
        pool, returning the index. */
    method ParseVariable(message: string) returns (global: nat)
      requires Valid()
      modifies this
      ensures Valid() && (global, State()) == AfterParseVariable(tokens, old(State()), message)
    {
      Consume(Identifier, message);
      ghost var a := State();
      var identifier := previous.lexeme;
      chunk := Chunk(chunk.code, chunk.constant + [Value.String(identifier)]);
      assert State() == a.(chunk := Chunk(a.chunk.code, a.chunk.constant + [Value.String(a.previous.lexeme)]));
      return |chunk.constant| - 1;
    }

    /** define_variable: DefineGlobal of the name's pool index. */
    method DefineVariable(global: nat)
      requires Valid() && global < |chunk.constant| && chunk.constant[global].String?
      modifies this`chunk
      ensures Valid() && State() == AfterEmitByte(old(State()), DefineGlobal(global))
    {
      EmitByte(DefineGlobal(global));
    }

    /** declaration_var: name, initializer or nil, `;`, DefineGlobal. */
    method DeclarationVar()
      requires Valid()
      modifies this
      ensures Valid() && State() == AfterVarDeclaration(tokens, old(State()))
    {
      var global := ParseVariable(ExpectVariableName);
      ghost var named := chunk.constant;
      var initialized := TokenMatch(TokenType.Equal);
      if initialized {
        Expression();
      } else {
        EmitConstant(Value.Nil);
      }
      Consume(Semicolon, ExpectSemicolonAfterVar);
      assert chunk.constant[global] == named[global];
      DefineVariable(global);
    }

    /** statement_print: an expression, `;`, then Print. */
    method StatementPrint()
      requires Valid()
      modifies this
      ensures Valid() && State() == AfterPrintStatement(tokens, old(State()))
    {
      Expression();
      Consume(Semicolon, ExpectSemicolonAfterValue);
      EmitByte(OpCode.Print);
    }

    /** statement_expression: an expression, `;`, then Pop. */
    method StatementExpression()
      requires Valid()
      modifies this
      ensures Valid() && State() == AfterExpressionStatement(tokens, old(State()))
    {
      Expression();
      Consume(Semicolon, ExpectSemicolonAfterExpression);
      EmitByte(Pop);
    }

    method Statement()
      requires Valid()
      modifies this
      ensures Valid() && State() == AfterStatement(tokens, old(State()))
    {
      var isPrint := TokenMatch(TokenType.Print);
      if isPrint {
        StatementPrint();
      } else {
        StatementExpression();
      }
    }

    /** The body of compile once the scanner exists: advance, declarations
        until EOF is matched, then end_compiler. */
    method CompileTokens() returns (r: Chunk)
      requires Valid() && State() == Initial()
      modifies this
      ensures r == Compiled(tokens)
    {
      Advance();
      ghost var start := State();
      var done := TokenMatch(Eof);
      while !done
        invariant Valid()
        invariant !done ==> current.kind != Eof
        invariant (if done then State() else DeclarationsLoop(tokens, AfterDeclaration(tokens, State())))
          == DeclarationsLoop(tokens, start)
        decreases Measure(tokens, State())
      {
        Declaration();
        done := TokenMatch(Eof);
      }
      EndCompiler();
      return chunk;
    }

    method Declaration()
      requires Valid()
      modifies this
      ensures Valid() && State() == AfterDeclaration(tokens, old(State()))
    {
      var isVar := TokenMatch(Var);
      if isVar {
        DeclarationVar();
      } else {
        Statement();
      }
      if panicMode {
        Synchronize();
      }
    }
  }

  /** compile: the chunk for src, returned even when errors were reported;
      it always ends in Return and every pool index in it is valid. */
  method Compile(src: string) returns (r: Option<Chunk>)
    ensures r == Some(Compiled(ScanAll(src, 0, 1)))
    ensures r.Some? && WellFormed(r.value)
    ensures |r.value.code| > 0 && r.value.code[|r.value.code| - 1].0 == OpCode.Return
  {
    var scanner := new Scanner.Scan(src);
    scanner.ScanTokens(src);
    assert scanner.tokens == ScanAll(src, 0, 1);
    var compiler := new Compiler(scanner.tokens);
    var chunk := compiler.CompileTokens();
    return Some(chunk);
  }
}
