/** The recursive-descent expression parser of src/parser.rs. A cursor moves
    over a token sequence that ends in EOF; the tiers equality, comparison,
    term and factor each loop to build left-leaning Binary trees, unary
    recurses on prefix operators, and primary reads literals and groupings.

    ExpressionAt and its companions say, as functions of a position, what
    each method returns and where it leaves the cursor; the Parser class
    proves its methods equal to them. */
module Parser {
  import opened Wrappers
  import opened Scanner
  import Ast

  /** What a parse function returns: the tree and the new cursor. */
  datatype Parse = Parse(expr: Ast.Expr, next: nat)

  /** The four binary tiers, loosest first. */
  datatype Tier = EqualityTier | ComparisonTier | TermTier | FactorTier

  /** The operator kinds each tier's loop matches. */
  function Operators(tier: Tier): seq<TokenType>
  {
    match tier
    case EqualityTier => [BangEqual, EqualEqual]
    case ComparisonTier => [TokenType.Greater, GreaterEqual, TokenType.Less, LessEqual]
    case TermTier => [Minus, Plus]
    case FactorTier => [Slash, Star]
  }

  function Level(tier: Tier): nat
  {
    match tier
    case FactorTier => 1
    case TermTier => 2
    case ComparisonTier => 3
    case EqualityTier => 4
  }

  /** is_at_end: the token under the cursor is EOF. */
  predicate AtEnd(ts: seq<Token>, pos: nat)
    requires pos < |ts|
  {
    ts[pos].kind == Eof
  }

  /** What token_match tests: not at the end, and the kind under the cursor
      is one of kinds. */
  predicate MatchesAt(ts: seq<Token>, pos: nat, kinds: seq<TokenType>)
    requires pos < |ts|
  {
    !AtEnd(ts, pos) && ts[pos].kind in kinds
  }

  /** Where advance leaves the cursor: one further, except on EOF. */
  function AdvanceFrom(ts: seq<Token>, pos: nat): (next: nat)
    requires Tokens(ts) && pos < |ts|
    ensures next < |ts|
    ensures next == if AtEnd(ts, pos) then pos else pos + 1
  {
    if AtEnd(ts, pos) then pos else pos + 1
  }

  /** The undefined consume of the source, read as: step over the expected
      kind if it is there, otherwise leave the cursor where it is. */
  function ConsumeFrom(ts: seq<Token>, pos: nat, kind: TokenType): nat
    requires Tokens(ts) && pos < |ts|
  {
    if MatchesAt(ts, pos, [kind]) then pos + 1 else pos
  }

  /** expression: the equality tier. */
  function ExpressionAt(ts: seq<Token>, pos: nat): (r: Parse)
    requires Tokens(ts) && pos < |ts|
    ensures pos <= r.next < |ts|
    decreases |ts| - pos, 11
  {
    TierAt(ts, pos, EqualityTier)
  }

  /** A binary tier: an operand, then the loop over its operators. */
  function TierAt(ts: seq<Token>, pos: nat, tier: Tier): (r: Parse)
    requires Tokens(ts) && pos < |ts|
    ensures pos <= r.next < |ts|
    decreases |ts| - pos, 2 * Level(tier) + 2
  {
    var first := OperandAt(ts, pos, tier);
    TierRest(ts, first.next, first.expr, tier)
  }

  /** The operands of a tier: the next tighter tier, or unary below factor. */
  function OperandAt(ts: seq<Token>, pos: nat, tier: Tier): (r: Parse)
    requires Tokens(ts) && pos < |ts|
    ensures pos <= r.next < |ts|
    decreases |ts| - pos, 2 * Level(tier) + 1
  {
    match tier
    case EqualityTier => TierAt(ts, pos, ComparisonTier)
    case ComparisonTier => TierAt(ts, pos, TermTier)
    case TermTier => TierAt(ts, pos, FactorTier)
    case FactorTier => UnaryAt(ts, pos)
  }

  /** The loop of a tier: while an operator of the tier is under the cursor,
      take it and the next operand, and make them the right side of a Binary
      whose left side is everything parsed so far. */
  function TierRest(ts: seq<Token>, pos: nat, acc: Ast.Expr, tier: Tier): (r: Parse)
    requires Tokens(ts) && pos < |ts|
    ensures pos <= r.next < |ts|
    decreases |ts| - pos, 0
  {
    if MatchesAt(ts, pos, Operators(tier)) then
      var right := OperandAt(ts, pos + 1, tier);
      TierRest(ts, right.next, Ast.Binary(acc, ts[pos], right.expr), tier)
    else
      Parse(acc, pos)
  }

  /** unary: `!` or `-` followed by a unary, otherwise a primary. */
  function UnaryAt(ts: seq<Token>, pos: nat): (r: Parse)
    requires Tokens(ts) && pos < |ts|
    ensures pos <= r.next < |ts|
    decreases |ts| - pos, 2
  {
    if MatchesAt(ts, pos, [Bang, Minus]) then
      var operand := UnaryAt(ts, pos + 1);
      Parse(Ast.Unary(ts[pos], operand.expr), operand.next)
    else
      PrimaryAt(ts, pos)
  }

  /** primary: false, true, nil, a number or string carrying its literal, or
      a parenthesised expression. A number or string token without a
      literal is consumed and parsing goes on with the grouping test. */
  function PrimaryAt(ts: seq<Token>, pos: nat): (r: Parse)
    requires Tokens(ts) && pos < |ts|
    ensures pos <= r.next < |ts|
    decreases |ts| - pos, 1
  {
    if MatchesAt(ts, pos, [False]) then Parse(Ast.Literal(Ast.False), pos + 1)
    else if MatchesAt(ts, pos, [True]) then Parse(Ast.Literal(Ast.True), pos + 1)
    else if MatchesAt(ts, pos, [TokenType.Nil]) then Parse(Ast.Literal(Ast.Nil), pos + 1)
    else if MatchesAt(ts, pos, [TokenType.Number, TokenType.String]) then
      match ts[pos].literal
      case Some(Str(s)) => Parse(Ast.Literal(Ast.String(s)), pos + 1)
      case Some(Num(n)) => Parse(Ast.Literal(Ast.Number(n)), pos + 1)
      case None => GroupingAt(ts, pos + 1)
    else GroupingAt(ts, pos)
  }

  /** The last two steps of primary: `(` expression `)`, or Nil consuming
      nothing. */
  function GroupingAt(ts: seq<Token>, pos: nat): (r: Parse)
    requires Tokens(ts) && pos < |ts|
    ensures pos <= r.next < |ts|
    decreases |ts| - pos, 0
  {
    if MatchesAt(ts, pos, [LeftParen]) then
      var inner := ExpressionAt(ts, pos + 1);
      Parse(Ast.Grouping(inner.expr), ConsumeFrom(ts, inner.next, RightParen))
    else
      Parse(Ast.Literal(Ast.Nil), pos)
  }

  /** The cursor over a token vector. */
  class Parser {
    const tokens: seq<Token>
    var current: nat

    predicate Valid()
      reads this
    {
      Tokens(tokens) && current < |tokens|
    }

    constructor (tokens: seq<Token>)
      requires Tokens(tokens)
      ensures this.tokens == tokens && current == 0 && Valid()
    {
      this.tokens := tokens;
      current := 0;
    }

    function Peek(): Token
      reads this
      requires Valid()
    {
      tokens[current]
    }

    function Previous(): Token
      reads this
      requires Valid() && current >= 1
    {
      tokens[current - 1]
    }

    predicate IsAtEnd()
      reads this
      requires Valid()
    {
      Peek().kind == Eof
    }

    predicate Check(kind: TokenType)
      reads this
      requires Valid()
    {
      if IsAtEnd() then false else Peek().kind == kind
    }

    /** advance: steps over any token but EOF and returns the token before
        the new cursor. At the very first position an EOF has no previous
        token, so there the source underflows. */
    method Advance() returns (t: Token)
      requires Valid() && (current >= 1 || !IsAtEnd())
      modifies this`current
      ensures Valid() && current == AdvanceFrom(tokens, old(current))
      ensures t == tokens[current - 1]
    {
      if !IsAtEnd() {
        current := current + 1;
      }
      t := Previous();
    }

    /** token_match: tries the kinds in order and advances over the first
        that the current token has. */
    method TokenMatch(kinds: seq<TokenType>) returns (matched: bool)
      requires Valid()
      modifies this`current
      ensures Valid()
      ensures matched == MatchesAt(tokens, old(current), kinds)
      ensures current == if matched then old(current) + 1 else old(current)
    {
      for k := 0 to |kinds|
        invariant current == old(current)
        invariant !AtEnd(tokens, current) ==> tokens[current].kind !in kinds[..k]
      {
        if Check(kinds[k]) {
          var _ := Advance();
          return true;
        }
      }
      return false;
    }

    method Consume(kind: TokenType)
      requires Valid()
      modifies this`current
      ensures Valid() && current == ConsumeFrom(tokens, old(current), kind)
    {
      var _ := TokenMatch([kind]);
    }

    method Expression() returns (e: Ast.Expr)
      requires Valid()
      modifies this`current
      ensures Valid() && Parse(e, current) == ExpressionAt(tokens, old(current))
      decreases |tokens| - current, 10
    {
      e := Equality();
    }

    method Equality() returns (e: Ast.Expr)
      requires Valid()
      modifies this`current
      ensures Valid() && Parse(e, current) == TierAt(tokens, old(current), EqualityTier)
      decreases |tokens| - current, 9
    {
      e := Comparison();
      ghost var pos := current;
      var matched := TokenMatch(Operators(EqualityTier));
      while matched
        invariant Valid() && old(current) <= pos < |tokens|
        invariant TierRest(tokens, pos, e, EqualityTier) == TierAt(tokens, old(current), EqualityTier)
        invariant matched == MatchesAt(tokens, pos, Operators(EqualityTier))
        invariant current == if matched then pos + 1 else pos
        decreases |tokens| - pos
      {
        var operator := Previous();
        var right := Comparison();
        e := Ast.Binary(e, operator, right);
        pos := current;
        matched := TokenMatch(Operators(EqualityTier));
      }
    }

    method Comparison() returns (e: Ast.Expr)
      requires Valid()
      modifies this`current
      ensures Valid() && Parse(e, current) == TierAt(tokens, old(current), ComparisonTier)
      decreases |tokens| - current, 7
    {
      e := Term();
      ghost var pos := current;
      var matched := TokenMatch(Operators(ComparisonTier));
      while matched
        invariant Valid() && old(current) <= pos < |tokens|
        invariant TierRest(tokens, pos, e, ComparisonTier) == TierAt(tokens, old(current), ComparisonTier)
        invariant matched == MatchesAt(tokens, pos, Operators(ComparisonTier))
        invariant current == if matched then pos + 1 else pos
        decreases |tokens| - pos
      {
        var operator := Previous();
        var right := Term();
        e := Ast.Binary(e, operator, right);
        pos := current;
        matched := TokenMatch(Operators(ComparisonTier));
      }
    }

    method Term() returns (e: Ast.Expr)
      requires Valid()
      modifies this`current
      ensures Valid() && Parse(e, current) == TierAt(tokens, old(current), TermTier)
      decreases |tokens| - current, 5
    {
      e := Factor();
      ghost var pos := current;
      var matched := TokenMatch(Operators(TermTier));
      while matched
        invariant Valid() && old(current) <= pos < |tokens|
        invariant TierRest(tokens, pos, e, TermTier) == TierAt(tokens, old(current), TermTier)
        invariant matched == MatchesAt(tokens, pos, Operators(TermTier))
        invariant current == if matched then pos + 1 else pos
        decreases |tokens| - pos
      {
        var operator := Previous();
        var right := Factor();
        e := Ast.Binary(e, operator, right);
        pos := current;
        matched := TokenMatch(Operators(TermTier));
      }
    }

    method Factor() returns (e: Ast.Expr)
      requires Valid()
      modifies this`current
      ensures Valid() && Parse(e, current) == TierAt(tokens, old(current), FactorTier)
      decreases |tokens| - current, 3
    {
      e := Unary();
      ghost var pos := current;
      var matched := TokenMatch(Operators(FactorTier));
      while matched
        invariant Valid() && old(current) <= pos < |tokens|
        invariant TierRest(tokens, pos, e, FactorTier) == TierAt(tokens, old(current), FactorTier)
        invariant matched == MatchesAt(tokens, pos, Operators(FactorTier))
        invariant current == if matched then pos + 1 else pos
        decreases |tokens| - pos
      {
        var operator := Previous();
        var right := Unary();
        e := Ast.Binary(e, operator, right);
        pos := current;
        matched := TokenMatch(Operators(FactorTier));
      }
    }

    method Unary() returns (e: Ast.Expr)
      requires Valid()
      modifies this`current
      ensures Valid() && Parse(e, current) == UnaryAt(tokens, old(current))
      decreases |tokens| - current, 1
    {
      var matched := TokenMatch([Bang, Minus]);
      if matched {
        var operator := Previous();
        var right := Unary();
        return Ast.Unary(operator, right);
      }
      e := Primary();
    }

    method Primary() returns (e: Ast.Expr)
      requires Valid()
      modifies this`current
      ensures Valid() && Parse(e, current) == PrimaryAt(tokens, old(current))
      decreases |tokens| - current, 0
    {
      var matched := TokenMatch([False]);
      if matched {
        return Ast.Literal(Ast.False);
      }
      matched := TokenMatch([True]);
      if matched {
        return Ast.Literal(Ast.True);
      }
      matched := TokenMatch([TokenType.Nil]);
      if matched {
        return Ast.Literal(Ast.Nil);
      }
      matched := TokenMatch([TokenType.Number, TokenType.String]);
      if matched {
        match Previous().literal
        case Some(Str(s)) => return Ast.Literal(Ast.String(s));
        case Some(Num(n)) => return Ast.Literal(Ast.Number(n));
        case None =>
      }
      matched := TokenMatch([LeftParen]);
      if matched {
        var inner := Expression();
        Consume(RightParen);
        return Ast.Grouping(inner);
      }
      return Ast.Literal(Ast.Nil);
    }
  }
}
