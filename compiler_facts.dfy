/** What the compiler of src/compiler.rs guarantees, stated on the functions
    of the Compiler module: error tokens are skipped and reported, the
    recovery of synchronize, the instructions each operator and statement
    produces, and the agreement of the Pratt table with the precedence
    tiers of the recursive-descent parser. */
module CompilerFacts {
  import opened Wrappers
  import opened Scanner
  import opened Bytecode
  import opened Compiler
  import Parser

  /** The loop of advance passes over error tokens only. With none under
      the cursor it changes nothing; otherwise the compiler ends up
      panicking and the only report added is the first error token's, since
      every later one arrives in panic mode. */
  lemma {:induction false} SkipErrorsReports(ts: seq<Token>, s: CState)
    requires Cursor(ts, s) && s.next >= 1
    ensures var r := SkipErrors(ts, s);
      && (forall i | s.next - 1 <= i < r.next - 1 :: ts[i].kind == TokenError)
      && (s.current.kind != TokenError ==> r == s)
      && (s.current.kind == TokenError ==>
            && r.panicMode
            && (r.hadError <==> s.hadError || !s.panicMode)
            && r.reports == AfterParseErrorToken(s, s.current).reports)
    decreases |ts| - s.next
  {
    if s.current.kind == TokenError {
      SkipErrorsReports(ts, SkipOne(ts, s));
    }
  }

  /** advance: current is never an error token afterwards, every token
      scanned in between was one, and the first of them is reported unless
      the compiler was already panicking. */
  lemma AdvanceReports(ts: seq<Token>, s: CState)
    requires Inv(ts, s)
    ensures var r := AfterAdvance(ts, s);
      var scanned := ScanAt(ts, s.next);
      && r.current.kind != TokenError && r.previous == s.current && r.chunk == s.chunk
      && (forall i | s.next <= i < r.next - 1 :: ts[i].kind == TokenError)
      && (scanned.kind != TokenError ==>
            r.current == scanned && r.next == NextAfter(ts, s.next) && r.reports == s.reports && r.panicMode == s.panicMode)
      && (scanned.kind == TokenError ==>
            r.panicMode && r.reports == AfterParseErrorToken(s, scanned).reports)
  {
    var x := s.(previous := s.current, current := ScanAt(ts, s.next), next := NextAfter(ts, s.next));
    SkipErrorsReports(ts, x);
  }

  /** parse_error while panicking changes nothing; otherwise it sets both
      flags and adds exactly one report, for the token and message given. */
  lemma ParseErrorFlags(s: CState, token: Token, message: Option<string>)
    ensures var r := AfterParseError(s, token, message);
      && (s.panicMode ==> r == s)
      && (!s.panicMode ==> r.panicMode && r.hadError && r.reports == s.reports + [Report(token.line, token.kind, message)])
      && r.chunk == s.chunk && r.current == s.current && r.previous == s.previous && r.next == s.next
  {
  }

  /** The skipping loop of synchronize ends panicking only when an advance
      inside it reported a new error token. */
  lemma {:induction false} SyncLoopPanics(ts: seq<Token>, s: CState)
    requires Inv(ts, s)
    ensures SyncLoop(ts, s).panicMode ==> s.panicMode || |s.reports| < |SyncLoop(ts, s).reports|
    decreases Measure(ts, s)
  {
    if s.current.kind != Eof && s.previous.kind != Semicolon && s.current.kind !in SyncKinds {
      var a := AfterAdvance(ts, s);
      AdvanceReports(ts, s);
      SyncLoopPanics(ts, a);
    }
  }

  /** synchronize stops where a statement can start: after a `;`, in front
      of one of the statement keywords, or at EOF; when the compiler is
      already there it only clears panic mode. It leaves the compiler
      panicking only when it skipped an error token, which it then
      reported. */
  lemma SynchronizeRecovers(ts: seq<Token>, s: CState)
    requires Inv(ts, s)
    ensures var r := AfterSynchronize(ts, s);
      && (r.current.kind == Eof || r.previous.kind == Semicolon || r.current.kind in SyncKinds)
      && (s.current.kind == Eof || s.previous.kind == Semicolon || s.current.kind in SyncKinds ==> r == s.(panicMode := false))
      && (r.panicMode ==> |s.reports| < |r.reports|)
      && r.chunk == s.chunk && (s.hadError ==> r.hadError)
  {
    SyncLoopPanics(ts, s.(panicMode := false));
  }

  /** The operators that compile to two instructions are exactly `!=`,
      `>=` and `<=`. */
  lemma BinaryOpsTwo(kind: TokenType)
    ensures |BinaryOps(kind)| == 2 <==> kind == BangEqual || kind == GreaterEqual || kind == LessEqual
  {
  }

  /** Every other operator of the table compiles to one instruction, and a
      token without an infix rule to none. */
  lemma BinaryOpsOne(kind: TokenType)
    ensures |BinaryOps(kind)| == 1 <==>
      || kind == Plus || kind == Minus || kind == Star || kind == Slash
      || kind == EqualEqual || kind == TokenType.Less || kind == TokenType.Greater
  {
  }

  /** binary emits an instruction for exactly the tokens with an infix
      rule. */
  lemma BinaryOpsCoverRules(kind: TokenType)
    ensures BinaryOps(kind) != [] <==> GetRules(kind).infix.Some?
  {
  }

  /** Each two-instruction form is the negation of its complement's single
      instruction: `a != b` is `!(a == b)`, `a >= b` is `!(a < b)` and
      `a <= b` is `!(a > b)`. */
  lemma BinaryOpsComplement()
    ensures BinaryOps(BangEqual) == BinaryOps(EqualEqual) + [Not]
    ensures BinaryOps(GreaterEqual) == BinaryOps(TokenType.Less) + [Not]
    ensures BinaryOps(LessEqual) == BinaryOps(TokenType.Greater) + [Not]
  {
  }

  /** Instructions all tagged with one line. */
  function AtLine(ops: seq<OpCode>, line: nat): (code: seq<(OpCode, nat)>)
    ensures |code| == |ops|
    ensures forall k | 0 <= k < |ops| :: code[k] == (ops[k], line)
  {
    seq(|ops|, k requires 0 <= k < |ops| => (ops[k], line))
  }

  /** The operator's instructions go after the code already there, all
      with the line of previous; the pool is untouched. */
  lemma EmitOperatorCode(ts: seq<Token>, s: CState, operator: TokenType)
    requires Inv(ts, s)
    ensures AfterEmitOperator(ts, s, operator).chunk == Chunk(s.chunk.code + AtLine(BinaryOps(operator), s.previous.line), s.chunk.constant)
  {
    var ops := BinaryOps(operator);
    if |ops| == 2 {
      assert AtLine(ops, s.previous.line) == [(ops[0], s.previous.line), (ops[1], s.previous.line)];
    } else if |ops| == 1 {
      assert AtLine(ops, s.previous.line) == [(ops[0], s.previous.line)];
    } else {
      assert AtLine(ops, s.previous.line) == [];
    }
  }

  /** binary emits in postfix order: the code of the left operand is
      already there, the right operand's code follows it, and the
      operator's instructions come last. */
  lemma BinaryPostfix(ts: seq<Token>, s: CState)
    requires Inv(ts, s)
    ensures var operator := s.previous.kind;
      var right := AfterParsePrecedence(ts, s, OperandPrecedence(operator));
      var r := AfterBinary(ts, s);
      && s.chunk.code <= right.chunk.code
      && r.chunk.code == right.chunk.code + AtLine(BinaryOps(operator), right.previous.line)
      && r.chunk.constant == right.chunk.constant
  {
    var operator := s.previous.kind;
    var right := AfterParsePrecedence(ts, s, OperandPrecedence(operator));
    BinaryUnfold(ts, s);
    EmitOperatorCode(ts, right, operator);
  }

  /** binary parses its right operand one level above the operator's own,
      so that operand stops in front of any operator of the same or a
      looser tier: `a - b - c` leaves the second `-` to the loop that
      already holds `a - b`, which makes each tier associate to the left. */
  lemma BinaryLeftAssociative(ts: seq<Token>, s: CState)
    requires Inv(ts, s)
    ensures var right := AfterParsePrecedence(ts, s, OperandPrecedence(s.previous.kind));
      right.panicMode || GetRules(right.current.kind).precedence <= GetRules(s.previous.kind).precedence
  {
  }

  /** unary parses its operand at unary precedence, above every binary
      operator, so the operand's infix loop never runs: `-a + b` negates
      `a` alone. */
  lemma UnaryOperandHasNoInfix(ts: seq<Token>, s: CState, canAssign: bool)
    requires Inv(ts, s)
    ensures AfterInfixLoop(ts, s, PrecUnary, canAssign) == s
  {
  }

  /** A print statement is its expression's code followed by Print, and an
      expression statement its expression's code followed by Pop; the `;`
      in between adds no instruction and no constant. */
  lemma StatementShapes(ts: seq<Token>, s: CState)
    requires Inv(ts, s)
    ensures var e := AfterExpression(ts, s);
      var p := AfterPrintStatement(ts, s);
      && p.chunk.code == e.chunk.code + [(OpCode.Print, p.previous.line)]
      && p.chunk.constant == e.chunk.constant
    ensures var e := AfterExpression(ts, s);
      var x := AfterExpressionStatement(ts, s);
      && x.chunk.code == e.chunk.code + [(Pop, x.previous.line)]
      && x.chunk.constant == e.chunk.constant
  {
  }

  /** parse_variable: the name's lexeme becomes the next pool entry, whose
      index is returned, and no instruction is emitted. */
  lemma ParseVariableShape(ts: seq<Token>, s: CState, message: string)
    requires Inv(ts, s)
    ensures var (global, a) := AfterParseVariable(ts, s, message);
      && global == |s.chunk.constant|
      && a.chunk.code == s.chunk.code
      && a.chunk.constant == s.chunk.constant + [Value.String(a.previous.lexeme)]
      && (s.current.kind == Identifier ==> a.previous == s.current)
  {
  }

  /** AfterVarDeclaration unfolded once. */
  lemma VarDeclarationUnfold(ts: seq<Token>, s: CState)
    requires Inv(ts, s)
    ensures var (global, a) := AfterParseVariable(ts, s, ExpectVariableName);
      var (initialized, b) := AfterTokenMatch(ts, a, TokenType.Equal);
      var c := if initialized then AfterExpression(ts, b) else AfterEmitConstant(b, Value.Nil);
      AfterVarDeclaration(ts, s) == AfterEmitByte(AfterConsume(ts, c, Semicolon, ExpectSemicolonAfterVar), DefineGlobal(global))
  {
  }

  /** A var declaration ends in DefineGlobal of the name's index, and
      that entry still holds the name. */
  lemma VarDeclarationDefines(ts: seq<Token>, s: CState)
    requires Inv(ts, s)
    ensures var (global, a) := AfterParseVariable(ts, s, ExpectVariableName);
      var r := AfterVarDeclaration(ts, s);
      && |r.chunk.code| > 0 && r.chunk.code[|r.chunk.code| - 1] == (DefineGlobal(global), r.previous.line)
      && r.chunk.constant[global] == Value.String(a.previous.lexeme)
  {
    var (global, a) := AfterParseVariable(ts, s, ExpectVariableName);
    var (initialized, b) := AfterTokenMatch(ts, a, TokenType.Equal);
    var c := if initialized then AfterExpression(ts, b) else AfterEmitConstant(b, Value.Nil);
    VarDeclarationUnfold(ts, s);
    ParseVariableShape(ts, s, ExpectVariableName);
    if !initialized {
      EmitConstantGrows(ts, b, Value.Nil);
    }
    assert Grows(ts, a, c);
    DefineAfterConsume(ts, c, global);
  }

  /** The last steps of a var declaration: `;` is consumed and DefineGlobal
      appended; the pool entry of the name is untouched. */
  lemma DefineAfterConsume(ts: seq<Token>, c: CState, global: nat)
    requires Inv(ts, c) && global < |c.chunk.constant|
    ensures var r := AfterEmitByte(AfterConsume(ts, c, Semicolon, ExpectSemicolonAfterVar), DefineGlobal(global));
      && |r.chunk.code| > 0 && r.chunk.code[|r.chunk.code| - 1] == (DefineGlobal(global), r.previous.line)
      && r.chunk.constant[global] == c.chunk.constant[global]
  {
  }

  /** `var x;`: after the name, a Constant for a new nil entry, then
      DefineGlobal of the name's index. */
  lemma VarDeclarationNil(ts: seq<Token>, s: CState)
    requires Inv(ts, s)
    ensures var (global, a) := AfterParseVariable(ts, s, ExpectVariableName);
      var r := AfterVarDeclaration(ts, s);
      a.current.kind != TokenType.Equal ==>
        && r.chunk.code == a.chunk.code + [(Constant(global + 1), a.previous.line), (DefineGlobal(global), r.previous.line)]
        && r.chunk.constant == a.chunk.constant + [Value.Nil]
  {
    VarDeclarationUnfold(ts, s);
  }

  /** `var x = e;`: after the name, the code of e, then DefineGlobal of the
      name's index. */
  lemma VarDeclarationInitializer(ts: seq<Token>, s: CState)
    requires Inv(ts, s)
    ensures var (global, a) := AfterParseVariable(ts, s, ExpectVariableName);
      var r := AfterVarDeclaration(ts, s);
      a.current.kind == TokenType.Equal ==>
        var e := AfterExpression(ts, AfterAdvance(ts, a));
        r.chunk.code == e.chunk.code + [(DefineGlobal(global), r.previous.line)]
  {
    VarDeclarationUnfold(ts, s);
  }

  /** named_variable emits GetGlobal or SetGlobal carrying the lexeme
      itself. It matches `=` before it looks at canAssign, so where
      assignment is not allowed a `=` is still advanced over and the
      variable is only read. */
  lemma NamedVariableShape(ts: seq<Token>, s: CState, token: Token, canAssign: bool)
    requires Inv(ts, s)
    ensures var r := AfterNamedVariable(ts, s, token, canAssign);
      && (s.current.kind != TokenType.Equal ==> r == AfterEmitByte(s, GetGlobal(token.lexeme)))
      && (s.current.kind == TokenType.Equal && !canAssign ==>
            r == AfterEmitByte(AfterAdvance(ts, s), GetGlobal(token.lexeme)))
      && (s.current.kind == TokenType.Equal && canAssign ==>
            var e := AfterExpression(ts, AfterAdvance(ts, s));
            r.chunk.code == e.chunk.code + [(SetGlobal(token.lexeme), e.previous.line)])
  {
  }

  /** Every Constant the compiler emits names an entry of the pool, and
      every DefineGlobal names a string entry, whatever the source text and
      whether or not errors were reported. */
  lemma CompiledIndicesValid(ts: seq<Token>)
    requires Tokens(ts)
    ensures var chunk := Compiled(ts);
      forall k | 0 <= k < |chunk.code| ::
        && (chunk.code[k].0.Constant? ==> chunk.code[k].0.index < |chunk.constant|)
        && (chunk.code[k].0.DefineGlobal? ==>
              chunk.code[k].0.global < |chunk.constant| && chunk.constant[chunk.code[k].0.global].String?)
  {
    var chunk := Compiled(ts);
    CodeWellFormedEvery(chunk.code, chunk.constant);
    forall k | 0 <= k < |chunk.code|
      ensures chunk.code[k].0.Constant? ==> chunk.code[k].0.index < |chunk.constant|
      ensures chunk.code[k].0.DefineGlobal? ==>
        chunk.code[k].0.global < |chunk.constant| && chunk.constant[chunk.code[k].0.global].String?
    {
      assert OpWellFormed(chunk.code[k].0, chunk.constant);
    }
  }

  /** The Pratt precedence of each of the parser's binary tiers. */
  function TierPrecedence(tier: Parser.Tier): nat
  {
    match tier
    case EqualityTier => PrecEquality
    case ComparisonTier => PrecComparison
    case TermTier => PrecTerm
    case FactorTier => PrecFactor
  }

  /** The two front ends agree: a token has an infix rule exactly when one
      of the parser's tiers loops over it, and its precedence is that
      tier's. */
  lemma RulesMatchTiers(kind: TokenType)
    ensures GetRules(kind).infix.Some? <==> exists tier :: kind in Parser.Operators(tier)
    ensures forall tier | kind in Parser.Operators(tier) :: GetRules(kind).precedence == TierPrecedence(tier)
  {
    forall tier | kind in Parser.Operators(tier)
      ensures GetRules(kind).precedence == TierPrecedence(tier)
    {
      TierRule(kind, tier);
    }
    if GetRules(kind).infix.Some? {
      var tier := TierOf(kind);
      TierRule(kind, tier);
    }
  }

  /** The tier whose precedence a binary operator has. */
  function TierOf(kind: TokenType): Parser.Tier
  {
    var p := GetRules(kind).precedence;
    if p == PrecEquality then Parser.EqualityTier
    else if p == PrecComparison then Parser.ComparisonTier
    else if p == PrecTerm then Parser.TermTier
    else Parser.FactorTier
  }

  /** One tier against the table: the tier loops over the token exactly
      when the token's rule has that tier's precedence. */
  lemma TierRule(kind: TokenType, tier: Parser.Tier)
    ensures kind in Parser.Operators(tier) <==> GetRules(kind).precedence == TierPrecedence(tier)
  {
    match tier
    case EqualityTier => EqualityRules(kind);
    case ComparisonTier => ComparisonRules(kind);
    case TermTier => TermRules(kind);
    case FactorTier => FactorRules(kind);
  }

  lemma EqualityRules(kind: TokenType)
    ensures kind in Parser.Operators(Parser.EqualityTier) <==> GetRules(kind).precedence == PrecEquality
  {
  }

  lemma ComparisonRules(kind: TokenType)
    ensures kind in Parser.Operators(Parser.ComparisonTier) <==> GetRules(kind).precedence == PrecComparison
  {
  }

  lemma TermRules(kind: TokenType)
    ensures kind in Parser.Operators(Parser.TermTier) <==> GetRules(kind).precedence == PrecTerm
  {
  }

  lemma FactorRules(kind: TokenType)
    ensures kind in Parser.Operators(Parser.FactorTier) <==> GetRules(kind).precedence == PrecFactor
  {
  }

  /** The tiers the parser nests deeper bind tighter in the table. */
  lemma TierOrder(t1: Parser.Tier, t2: Parser.Tier)
    ensures Parser.Level(t1) < Parser.Level(t2) <==> TierPrecedence(t1) > TierPrecedence(t2)
  {
  }
}
