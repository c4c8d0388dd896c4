/** Properties of the expression grammar of src/parser.rs, stated on the
    position functions of the Parser module. */
module ParserFacts {
  import opened Wrappers
  import opened Scanner
  import opened Parser
  import Ast
  import Interpreter
  import Bytecode

  /** The operators of the tiers that bind tighter than tier. */
  function Tighter(tier: Tier): seq<TokenType>
  {
    match tier
    case EqualityTier => Operators(ComparisonTier) + Operators(TermTier) + Operators(FactorTier)
    case ComparisonTier => Operators(TermTier) + Operators(FactorTier)
    case TermTier => Operators(FactorTier)
    case FactorTier => []
  }

  /** The operator at the root of e, if e is a Binary, is one of kinds. */
  predicate RootIn(e: Ast.Expr, kinds: seq<TokenType>)
  {
    e.Binary? ==> e.operator.kind in kinds
  }

  /** Along the left spine of e, no Binary node with an operator from kinds
      has a right operand whose root operator is also from kinds: a chain of
      same-tier operators groups to the left. */
  predicate LeftAssociative(e: Ast.Expr, kinds: seq<TokenType>)
  {
    match e
    case Binary(left, operator, right) =>
      operator.kind in kinds ==> !(right.Binary? && right.operator.kind in kinds) && LeftAssociative(left, kinds)
    case _ => true
  }

  lemma TighterDisjoint(tier: Tier, k: TokenType)
    ensures k in Operators(tier) ==> k !in Tighter(tier)
  {
  }

  /** The loop of a tier only adds Binary nodes carrying the tier's own
      operators on top of what it started with. */
  lemma {:induction false} TierRestRoot(ts: seq<Token>, pos: nat, acc: Ast.Expr, tier: Tier)
    requires Tokens(ts) && pos < |ts|
    requires RootIn(acc, Operators(tier) + Tighter(tier))
    ensures RootIn(TierRest(ts, pos, acc, tier).expr, Operators(tier) + Tighter(tier))
    decreases |ts| - pos
  {
    if MatchesAt(ts, pos, Operators(tier)) {
      var right := OperandAt(ts, pos + 1, tier);
      TierRestRoot(ts, right.next, Ast.Binary(acc, ts[pos], right.expr), tier);
    }
  }

  /** A tier's operand is a tree of a tighter tier: its root operator, if
      any, binds tighter than the tier's own operators. */
  lemma {:induction false} OperandRoot(ts: seq<Token>, pos: nat, tier: Tier)
    requires Tokens(ts) && pos < |ts|
    ensures RootIn(OperandAt(ts, pos, tier).expr, Tighter(tier))
    decreases Level(tier), 0
  {
    match tier
    case EqualityTier => TierRoot(ts, pos, ComparisonTier);
    case ComparisonTier => TierRoot(ts, pos, TermTier);
    case TermTier => TierRoot(ts, pos, FactorTier);
    case FactorTier => UnaryNotBinary(ts, pos);
  }

  /** A tier's tree has at its root one of its own operators or a tighter
      one, never a looser one. */
  lemma {:induction false} TierRoot(ts: seq<Token>, pos: nat, tier: Tier)
    requires Tokens(ts) && pos < |ts|
    ensures RootIn(TierAt(ts, pos, tier).expr, Operators(tier) + Tighter(tier))
    decreases Level(tier), 1
  {
    var first := OperandAt(ts, pos, tier);
    OperandRoot(ts, pos, tier);
    TierRestRoot(ts, first.next, first.expr, tier);
  }

  /** unary and primary never return a Binary at the root. */
  lemma UnaryNotBinary(ts: seq<Token>, pos: nat)
    requires Tokens(ts) && pos < |ts|
    ensures !UnaryAt(ts, pos).expr.Binary?
  {
    if !MatchesAt(ts, pos, [Bang, Minus]) {
      assert !GroupingAt(ts, pos).expr.Binary?;
      assert pos + 1 < |ts| ==> !GroupingAt(ts, pos + 1).expr.Binary?;
    }
  }

  lemma {:induction false} TierRestLeftAssociative(ts: seq<Token>, pos: nat, acc: Ast.Expr, tier: Tier)
    requires Tokens(ts) && pos < |ts|
    requires LeftAssociative(acc, Operators(tier))
    ensures LeftAssociative(TierRest(ts, pos, acc, tier).expr, Operators(tier))
    decreases |ts| - pos
  {
    if MatchesAt(ts, pos, Operators(tier)) {
      var right := OperandAt(ts, pos + 1, tier);
      OperandRoot(ts, pos + 1, tier);
      if right.expr.Binary? {
        TighterDisjoint(tier, right.expr.operator.kind);
      }
      TierRestLeftAssociative(ts, right.next, Ast.Binary(acc, ts[pos], right.expr), tier);
    }
  }

  /** Every binary tier groups to the left: in `a op b op c` with both
      operators from the tier, the tree is `(a op b) op c`. */
  lemma TierLeftAssociative(ts: seq<Token>, pos: nat, tier: Tier)
    requires Tokens(ts) && pos < |ts|
    ensures LeftAssociative(TierAt(ts, pos, tier).expr, Operators(tier))
  {
    var first := OperandAt(ts, pos, tier);
    OperandRoot(ts, pos, tier);
    if first.expr.Binary? {
      TighterDisjoint(tier, first.expr.operator.kind);
    }
    TierRestLeftAssociative(ts, first.next, first.expr, tier);
  }

  /** When no primary form is under the cursor, primary yields Nil and
      leaves the cursor where it was. */
  lemma NilFallback(ts: seq<Token>, pos: nat)
    requires Tokens(ts) && pos < |ts|
    requires AtEnd(ts, pos) || ts[pos].kind !in [False, True, TokenType.Nil, TokenType.Number, TokenType.String, LeftParen]
    ensures PrimaryAt(ts, pos) == Parse(Ast.Literal(Ast.Nil), pos)
  {
  }

  /** `(` e `)` parses to Grouping(e), consuming the closing parenthesis when
      it is there. */
  lemma GroupingParses(ts: seq<Token>, pos: nat)
    requires Tokens(ts) && pos < |ts| && ts[pos].kind == LeftParen
    ensures var inner := ExpressionAt(ts, pos + 1);
      && PrimaryAt(ts, pos).expr == Ast.Grouping(inner.expr)
      && PrimaryAt(ts, pos).next == (if ts[inner.next].kind == RightParen then inner.next + 1 else inner.next)
  {
    assert !AtEnd(ts, pos);
  }

  /** Prefix operators nest to the right: `! x` and `- x` wrap the unary
      that follows them. */
  lemma UnaryNests(ts: seq<Token>, pos: nat)
    requires Tokens(ts) && pos < |ts| && ts[pos].kind in [Bang, Minus]
    ensures UnaryAt(ts, pos) == Parse(Ast.Unary(ts[pos], UnaryAt(ts, pos + 1).expr), UnaryAt(ts, pos + 1).next)
  {
    assert !AtEnd(ts, pos);
  }

  function NumberToken(n: real, lexeme: string): Token
  {
    Token(TokenType.Number, lexeme, Some(Num(n)), 1)
  }

  function OperatorToken(kind: TokenType, lexeme: string): Token
  {
    Token(kind, lexeme, None, 1)
  }

  /** A number token carrying its value is a whole operand of factor. */
  lemma {:induction false} NumberOperand(ts: seq<Token>, pos: nat, n: real)
    requires Tokens(ts) && pos < |ts| && ts[pos].kind == TokenType.Number && ts[pos].literal == Some(Num(n))
    ensures UnaryAt(ts, pos) == Parse(Ast.Literal(Ast.Number(n)), pos + 1)
  {
    assert !MatchesAt(ts, pos, [Bang, Minus]);
    assert PrimaryAt(ts, pos) == Parse(Ast.Literal(Ast.Number(n)), pos + 1);
  }

  /** One turn of a tier's loop over `op operand` followed by a token that
      is not one of the tier's operators. */
  lemma TierStep(ts: seq<Token>, pos: nat, acc: Ast.Expr, tier: Tier, right: Parse)
    requires Tokens(ts) && pos + 1 < |ts| && MatchesAt(ts, pos, Operators(tier))
    requires OperandAt(ts, pos + 1, tier) == right && !MatchesAt(ts, right.next, Operators(tier))
    ensures TierRest(ts, pos, acc, tier) == Parse(Ast.Binary(acc, ts[pos], right.expr), right.next)
  {
  }

  function ProductDifference(): seq<Token>
  {
    [NumberToken(3.0, "3"), OperatorToken(Star, "*"), NumberToken(6.0, "6"),
     OperatorToken(Minus, "-"), NumberToken(7.0, "7"), OperatorToken(Slash, "/"),
     NumberToken(2.0, "2"), Token(Eof, EofLexeme, None, 1)]
  }

  /** In `3*6 - 7 / 2`, factor reads `3*6` first. */
  lemma ProductFactor()
    ensures Tokens(ProductDifference())
    ensures var ts := ProductDifference();
      TierAt(ts, 0, FactorTier) == Parse(Ast.Binary(Ast.Literal(Ast.Number(3.0)), ts[1], Ast.Literal(Ast.Number(6.0))), 3)
  {
    var ts := ProductDifference();
    NumberOperand(ts, 0, 3.0);
    NumberOperand(ts, 2, 6.0);
    TierStep(ts, 1, Ast.Literal(Ast.Number(3.0)), FactorTier, Parse(Ast.Literal(Ast.Number(6.0)), 3));
  }

  /** After the `-`, factor reads `7/2`. */
  lemma QuotientFactor()
    ensures Tokens(ProductDifference())
    ensures var ts := ProductDifference();
      TierAt(ts, 4, FactorTier) == Parse(Ast.Binary(Ast.Literal(Ast.Number(7.0)), ts[5], Ast.Literal(Ast.Number(2.0))), 7)
  {
    var ts := ProductDifference();
    NumberOperand(ts, 4, 7.0);
    NumberOperand(ts, 6, 2.0);
    TierStep(ts, 5, Ast.Literal(Ast.Number(7.0)), FactorTier, Parse(Ast.Literal(Ast.Number(2.0)), 7));
  }

  /** The tokens of `3*6 - 7 / 2` parse as (3*6) - (7/2): factor binds
      tighter than term. */
  lemma PrecedenceExample()
    ensures Tokens(ProductDifference())
    ensures var ts := ProductDifference();
      ExpressionAt(ts, 0) ==
        Parse(Ast.Binary(Ast.Binary(Ast.Literal(Ast.Number(3.0)), ts[1], Ast.Literal(Ast.Number(6.0))),
                         ts[3],
                         Ast.Binary(Ast.Literal(Ast.Number(7.0)), ts[5], Ast.Literal(Ast.Number(2.0)))), 7)
  {
    var ts := ProductDifference();
    ProductFactor();
    QuotientFactor();
    var product := Ast.Binary(Ast.Literal(Ast.Number(3.0)), ts[1], Ast.Literal(Ast.Number(6.0)));
    var quotient := Ast.Binary(Ast.Literal(Ast.Number(7.0)), ts[5], Ast.Literal(Ast.Number(2.0)));
    TierStep(ts, 3, product, TermTier, Parse(quotient, 7));
    var difference := Ast.Binary(product, ts[3], quotient);
    assert TierAt(ts, 0, TermTier) == Parse(difference, 7);
    assert TierAt(ts, 0, ComparisonTier) == Parse(difference, 7);
  }

  /** Parsed and then evaluated, `3*6 - 7 / 2` is 14.5. */
  lemma PrecedenceEvaluates()
    ensures Tokens(ProductDifference())
    ensures Interpreter.NoZeroDivisor(ExpressionAt(ProductDifference(), 0).expr)
    ensures Interpreter.InterpretExpression(ExpressionAt(ProductDifference(), 0).expr) == Ok(Bytecode.Value.Number(14.5))
  {
    PrecedenceExample();
    var ts := ProductDifference();
    Interpreter.PrecedenceExample(ts[1], ts[3], ts[5]);
  }
}
