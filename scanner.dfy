/** The character-level lexer (src/scanner.rs): token kinds, the keyword
    table, a functional statement of what one call of scan_token produces
    (ScanFrom), and the Scanner object whose fields start/current/line move
    character by character while tokens is pushed in place. */
module Scanner {
  import opened Wrappers

  datatype TokenType =
    // single-character tokens
    | LeftParen | RightParen | LeftBrace | RightBrace | Comma | Dot
    | Minus | Plus | Semicolon | Slash | Star
    // one- or two-character tokens
    | Bang | BangEqual | Equal | EqualEqual
    | Greater | GreaterEqual | Less | LessEqual
    // literals
    | Identifier | String | Number
    // keywords
    | And | Class | Else | False | Fun | For | If | Nil | Or | Print
    | Return | Super | This | True | Var | Const | While
    | Eof | TokenError

  /** The payload of a token: the text of a string (or an error message),
      or the value of a number lexeme. */
  datatype Literal = Str(text: string) | Num(number: real)

  datatype Token = Token(kind: TokenType, lexeme: string, literal: Option<Literal>, line: nat)

  /** The keyword table installed by the default scanner: 16 words; "this"
      is not among them. */
  const Keywords: map<string, TokenType> := map[
    "and" := And, "class" := Class, "else" := Else, "false" := False,
    "for" := For, "fun" := Fun, "if" := If, "nil" := Nil, "or" := Or,
    "print" := Print, "return" := Return, "super" := Super, "true" := True,
    "var" := Var, "while" := While, "const" := Const]

  /** The lexeme of every EOF token, and the literals of the two error
      tokens. */
  const EofLexeme: string := "EOF"
  const UnterminatedMessage: string := "Unterminated string"
  const UnexpectedMessage: string := "Unexpected character"

  predicate IsDigit(c: char) { '0' <= c <= '9' }

  predicate IsAlpha(c: char) { 'a' <= c <= 'z' || 'A' <= c <= 'Z' }

  predicate IsAlphaNumeric(c: char) { IsAlpha(c) || IsDigit(c) }

  /** The character classes that the scanner's inner loops advance over. */
  datatype CharClass = Digits | AlphaNumerics | NotNewline | NotQuote

  predicate InClass(c: char, cls: CharClass)
  {
    match cls
    case Digits => IsDigit(c)
    case AlphaNumerics => IsAlphaNumeric(c)
    case NotNewline => c != '\n'
    case NotQuote => c != '"'
  }

  /** The end of the longest run of characters of class cls that starts at i. */
  function Span(s: string, i: nat, cls: CharClass): (j: nat)
    requires i <= |s|
    ensures i <= j <= |s|
    ensures j == |s| || !InClass(s[j], cls)
    decreases |s| - i
  {
    if i < |s| && InClass(s[i], cls) then Span(s, i + 1, cls) else i
  }

  /** Every character of the span is of class cls. */
  lemma {:induction false} SpanRun(s: string, i: nat, cls: CharClass)
    requires i <= |s|
    ensures forall k | i <= k < Span(s, i, cls) :: InClass(s[k], cls)
    decreases |s| - i
  {
    if i < |s| && InClass(s[i], cls) {
      SpanRun(s, i + 1, cls);
    }
  }

  /** A run is determined by its two ends: any j that bounds a maximal run
      from i is the Span. */
  lemma {:induction false} SpanUnique(s: string, i: nat, j: nat, cls: CharClass)
    requires i <= j <= |s|
    requires forall k | i <= k < j :: InClass(s[k], cls)
    requires j == |s| || !InClass(s[j], cls)
    ensures Span(s, i, cls) == j
    decreases j - i
  {
    if i < j {
      SpanUnique(s, i + 1, j, cls);
    }
  }

  function Newlines(s: string): (n: nat)
    ensures n <= |s|
  {
    if s == [] then 0 else Newlines(s[..|s| - 1]) + (if s[|s| - 1] == '\n' then 1 else 0)
  }

  lemma NewlinesExtend(s: string, i: nat, j: nat)
    requires i <= j < |s|
    ensures Newlines(s[i..j + 1]) == Newlines(s[i..j]) + (if s[j] == '\n' then 1 else 0)
  {
    assert s[i..j + 1][..j - i] == s[i..j];
  }

  function DigitValue(c: char): nat
  {
    if IsDigit(c) then c as int - '0' as int else 0
  }

  function DigitsValue(ds: string): nat
  {
    if ds == [] then 0 else DigitsValue(ds[..|ds| - 1]) * 10 + DigitValue(ds[|ds| - 1])
  }

  function Pow10(n: nat): (p: nat)
    ensures p >= 1
  {
    if n == 0 then 1 else 10 * Pow10(n - 1)
  }

  /** The exact decimal value of a number lexeme `digits[.digits]`. */
  function NumberValue(lexeme: string): real
  {
    var dot := Span(lexeme, 0, Digits);
    if dot < |lexeme| then
      DigitsValue(lexeme[..dot]) as real
        + DigitsValue(lexeme[dot + 1..]) as real / Pow10(|lexeme| - dot - 1) as real
    else
      DigitsValue(lexeme) as real
  }

  /** The ten characters that are a token on their own. */
  function SingleCharKind(c: char): Option<TokenType>
  {
    match c
    case '(' => Some(LeftParen)
    case ')' => Some(RightParen)
    case '{' => Some(LeftBrace)
    case '}' => Some(RightBrace)
    case ',' => Some(Comma)
    case '.' => Some(Dot)
    case '-' => Some(Minus)
    case '+' => Some(Plus)
    case ';' => Some(Semicolon)
    case '*' => Some(Star)
    case _ => None
  }

  /** What one call of scan_token yields: the token, and the scanner's
      `current` and `line` afterwards. */
  datatype Scanned = Scanned(token: Token, current: nat, line: nat)

  /** `!`, `=`, `>` or `<` at cur, taking a following `=` into the token. */
  function OperatorAt(src: string, cur: nat, line: nat, long: TokenType, short: TokenType): (r: Scanned)
    requires cur < |src|
  {
    var two := cur + 1 < |src| && src[cur + 1] == '=';
    var end := if two then cur + 2 else cur + 1;
    Scanned(Token(if two then long else short, src[cur..end], None, line), end, line)
  }

  /** A string literal whose opening quote is at cur. */
  function StringAt(src: string, cur: nat, line: nat): (r: Scanned)
    requires cur < |src|
  {
    var close := Span(src, cur + 1, NotQuote);
    var endLine := line + Newlines(src[cur + 1..close]);
    if close == |src| then
      Scanned(Token(TokenError, src[cur..close], Some(Str(UnterminatedMessage)), endLine), close, endLine)
    else
      Scanned(Token(String, src[cur..close + 1], Some(Str(src[cur + 1..close])), endLine), close + 1, endLine)
  }

  /** The end of a number lexeme whose first digit is at cur: the digit
      run, extended by a `.` and a second digit run only when a digit
      follows the `.`. */
  function NumberEnd(src: string, cur: nat): (end: nat)
    requires cur < |src|
    ensures cur < end <= |src|
  {
    var intEnd := Span(src, cur + 1, Digits);
    if intEnd + 1 < |src| && src[intEnd] == '.' && IsDigit(src[intEnd + 1])
    then Span(src, intEnd + 1, Digits) else intEnd
  }

  /** A number lexeme whose first digit is at cur. */
  function NumberAt(src: string, cur: nat, line: nat): (r: Scanned)
    requires cur < |src|
  {
    var end := NumberEnd(src, cur);
    Scanned(Token(Number, src[cur..end], Some(Num(NumberValue(src[cur..end]))), line), end, line)
  }

  /** A word whose first letter is at cur: a keyword or an identifier. */
  function IdentifierAt(src: string, cur: nat, line: nat): (r: Scanned)
    requires cur < |src|
  {
    var end := Span(src, cur + 1, AlphaNumerics);
    var text := src[cur..end];
    Scanned(Token(if text in Keywords then Keywords[text] else Identifier, text, None, line), end, line)
  }

  /** Whitespace, a newline, or the start of a `//` comment: what
      scan_token skips before it records a token. */
  predicate AtTrivia(src: string, cur: nat)
  {
    cur < |src| &&
    (src[cur] == ' ' || src[cur] == '\r' || src[cur] == '\t' || src[cur] == '\n' ||
     (src[cur] == '/' && cur + 1 < |src| && src[cur + 1] == '/'))
  }

  /** The token whose first character is at cur, for a character that does
      not start trivia. */
  function LexemeAt(src: string, cur: nat, line: nat): (r: Scanned)
    requires cur < |src| && !AtTrivia(src, cur)
    ensures cur < r.current <= |src| && line <= r.line == r.token.line
    ensures r.token.kind != Eof
  {
    var c := src[cur];
    if SingleCharKind(c).Some? then
      Scanned(Token(SingleCharKind(c).value, src[cur..cur + 1], None, line), cur + 1, line)
    else if c == '!' then OperatorAt(src, cur, line, BangEqual, Bang)
    else if c == '=' then OperatorAt(src, cur, line, EqualEqual, Equal)
    else if c == '>' then OperatorAt(src, cur, line, GreaterEqual, Greater)
    else if c == '<' then OperatorAt(src, cur, line, LessEqual, Less)
    else if c == '/' then Scanned(Token(Slash, src[cur..cur + 1], None, line), cur + 1, line)
    else if c == '"' then StringAt(src, cur, line)
    else if IsDigit(c) then NumberAt(src, cur, line)
    else if IsAlpha(c) then IdentifierAt(src, cur, line)
    else Scanned(Token(TokenError, src[cur..cur + 1], Some(Str(UnexpectedMessage)), line), cur + 1, line)
  }

  /** Where the scanner stands: the index of the next character and the
      line it is on. */
  datatype Position = Position(current: nat, line: nat)

  /** The position after the whitespace, newlines and `//` comments that
      scan_token skips (re-entering itself) before the next token. */
  function SkipTrivia(src: string, cur: nat, line: nat): (p: Position)
    requires cur <= |src|
    ensures cur <= p.current <= |src| && line <= p.line
    ensures !AtTrivia(src, p.current)
    decreases |src| - cur
  {
    if cur == |src| then
      Position(cur, line)
    else if src[cur] == '/' && cur + 1 < |src| && src[cur + 1] == '/' then
      SkipTrivia(src, Span(src, cur + 2, NotNewline), line)
    else if src[cur] == ' ' || src[cur] == '\r' || src[cur] == '\t' then
      SkipTrivia(src, cur + 1, line)
    else if src[cur] == '\n' then
      SkipTrivia(src, cur + 1, line + 1)
    else
      Position(cur, line)
  }

  /** The token scan_token returns when the scanner stands at cur on line
      `line`: trivia is skipped first; at the end of the source the token is
      EOF and nothing more is consumed. */
  function ScanFrom(src: string, cur: nat, line: nat): (r: Scanned)
    requires cur <= |src|
    ensures cur <= r.current <= |src| && line <= r.line
    ensures r.token.kind == Eof ==> r.current == |src| && r.token == Token(Eof, EofLexeme, None, r.line)
    ensures r.token.kind != Eof ==> cur < r.current
    ensures r.token.line == r.line
  {
    var p := SkipTrivia(src, cur, line);
    if p.current == |src| then
      Scanned(Token(Eof, EofLexeme, None, p.line), p.current, p.line)
    else
      LexemeAt(src, p.current, p.line)
  }

  /** Every token scan_tokens collects from cur onwards, up to and including
      the first EOF. */
  function ScanAll(src: string, cur: nat, line: nat): (ts: seq<Token>)
    requires cur <= |src|
    ensures |ts| > 0 && ts[|ts| - 1].kind == Eof
    decreases |src| - cur
  {
    var r := ScanFrom(src, cur, line);
    if r.token.kind == Eof then [r.token] else [r.token] + ScanAll(src, r.current, r.line)
  }

  /** A token sequence that ends in EOF, as ScanAll produces: a cursor over
      it always has a token under it. */
  predicate Tokens(ts: seq<Token>)
  {
    |ts| > 0 && ts[|ts| - 1].kind == Eof
  }

  lemma ScanAllStep(src: string, cur: nat, line: nat)
    requires cur <= |src|
    ensures var r := ScanFrom(src, cur, line);
      ScanAll(src, cur, line) == [r.token] + (if r.token.kind == Eof then [] else ScanAll(src, r.current, r.line))
  {
  }

  /** At the end of the source only EOF is left, on the current line. */
  lemma ScanAllAtEnd(src: string, line: nat)
    ensures ScanAll(src, |src|, line) == [Token(Eof, EofLexeme, None, line)]
  {
  }

  lemma AppendAssoc<T>(a: seq<T>, b: seq<T>, c: seq<T>)
    ensures a + (b + c) == (a + b) + c
  {
  }

  class Scanner {
    var source: string
    var tokens: seq<Token>
    var start: nat
    var current: nat
    var line: nat
    const keywords: map<string, TokenType> := Keywords

    /** The current lexeme source[start..current] lies inside the source. */
    ghost predicate Valid()
      reads this
    {
      start <= current <= |source|
    }

    /** The default scanner: empty source, no tokens, line 1. */
    constructor Default()
      ensures Valid()
      ensures source == "" && tokens == [] && start == 0 && current == 0 && line == 1
    {
      source := "";
      tokens := [];
      start, current, line := 0, 0, 1;
    }

    /** scan: a default scanner over the given source; nothing is scanned yet. */
    constructor Scan(input: string)
      ensures Valid()
      ensures source == input && tokens == [] && start == 0 && current == 0 && line == 1
    {
      source := input;
      tokens := [];
      start, current, line := 0, 0, 1;
    }

    predicate ScanFinished()
      reads this
    {
      current >= |source|
    }

    function Peek(): char
      reads this
    {
      if ScanFinished() then '\0' else source[current]
    }

    function PeekNext(): char
      reads this
    {
      if current + 1 >= |source| then '\0' else source[current + 1]
    }

    method Advance() returns (c: char)
      requires current < |source|
      modifies this`current
      ensures current == old(current) + 1 && c == source[old(current)]
    {
      current := current + 1;
      c := source[current - 1];
    }

    method Match(expected: char) returns (matched: bool)
      modifies this`current
      ensures matched == (old(current) < |source| && source[old(current)] == expected)
      ensures current == if matched then old(current) + 1 else old(current)
    {
      if ScanFinished() {
        return false;
      }
      if source[current] != expected {
        return false;
      }
      current := current + 1;
      return true;
    }

    method AddTokenLiteral(kind: TokenType, literal: Option<Literal>) returns (t: Token)
      requires Valid()
      modifies this`tokens
      ensures t == Token(kind, if kind == Eof then EofLexeme else source[start..current], literal, line)
      ensures tokens == old(tokens) + [t]
    {
      var text := source[start..current];
      if kind == Eof {
        text := EofLexeme;
      }
      t := Token(kind, text, literal, line);
      tokens := tokens + [t];
    }

    method AddToken(kind: TokenType) returns (t: Token)
      requires Valid()
      modifies this`tokens
      ensures t == Token(kind, if kind == Eof then EofLexeme else source[start..current], None, line)
      ensures tokens == old(tokens) + [t]
    {
      t := AddTokenLiteral(kind, None);
    }

    /** The inner `while peek() ...` loops of the scanner: advance over the
        longest run of characters of the class. */
    method AdvanceWhile(cls: CharClass)
      requires Valid()
      modifies this`current
      ensures Valid()
      ensures current == Span(source, old(current), cls)
    {
      while InClass(Peek(), cls) && !ScanFinished()
        invariant old(current) <= current <= |source|
        invariant Span(source, current, cls) == Span(source, old(current), cls)
        decreases |source| - current
      {
        var _ := Advance();
      }
    }

    method ScanIdentifier() returns (t: Token)
      requires Valid() && current == start + 1
      modifies this`current, this`tokens
      ensures Valid()
      ensures Scanned(t, current, line) == IdentifierAt(source, start, line)
      ensures tokens == old(tokens) + [t]
    {
      AdvanceWhile(AlphaNumerics);
      var text := source[start..current];
      var kind := if text in keywords then keywords[text] else Identifier;
      t := AddToken(kind);
    }

    method ScanNumber() returns (t: Token)
      requires Valid() && current == start + 1
      modifies this`current, this`tokens
      ensures Valid()
      ensures Scanned(t, current, line) == NumberAt(source, start, line)
      ensures tokens == old(tokens) + [t]
    {
      AdvanceWhile(Digits);
      if Peek() == '.' && IsDigit(PeekNext()) {
        var _ := Advance();
        AdvanceWhile(Digits);
      }
      assert current == NumberEnd(source, start);
      var text := source[start..current];
      t := AddTokenLiteral(Number, Some(Num(NumberValue(text))));
      assert t == NumberAt(source, start, line).token;
    }

    /** The body loop of string(): advances to the closing quote or the end
        of the source, counting the newlines it passes. */
    method SkipStringBody()
      requires Valid()
      modifies this`current, this`line
      ensures Valid()
      ensures current == Span(source, old(current), NotQuote)
      ensures line == old(line) + Newlines(source[old(current)..current])
    {
      while Peek() != '"' && !ScanFinished()
        invariant old(current) <= current <= |source|
        invariant Span(source, current, NotQuote) == Span(source, old(current), NotQuote)
        invariant line == old(line) + Newlines(source[old(current)..current])
        decreases |source| - current
      {
        if Peek() == '\n' {
          line := line + 1;
        }
        NewlinesExtend(source, old(current), current);
        var _ := Advance();
      }
    }

    method ScanString() returns (t: Token)
      requires Valid() && current == start + 1
      modifies this`current, this`line, this`tokens
      ensures Valid()
      ensures Scanned(t, current, line) == StringAt(source, start, old(line))
      ensures tokens == old(tokens) + [t]
    {
      ghost var spec := StringAt(source, start, line);
      SkipStringBody();
      assert current == Span(source, start + 1, NotQuote) && spec.line == line;
      if ScanFinished() {
        t := AddTokenLiteral(TokenError, Some(Str(UnterminatedMessage)));
        assert spec.token == t;
        return;
      }
      var _ := Advance();
      var value := source[start + 1..current - 1];
      t := AddTokenLiteral(String, Some(Str(value)));
      assert spec.token == t;
    }

    /** The `!`, `=`, `>` and `<` arms of scan_token: a following `=` is
        matched into the two-character kind. */
    method ScanOperator(long: TokenType, short: TokenType) returns (t: Token)
      requires Valid() && current == start + 1 && start < |source| && long != Eof && short != Eof
      modifies this`current, this`tokens
      ensures Valid()
      ensures Scanned(t, current, line) == OperatorAt(source, start, line, long, short)
      ensures tokens == old(tokens) + [t]
    {
      var eq := Match('=');
      t := AddToken(if eq then long else short);
    }

    /** The arms of scan_token's match that record a token, for the
        character c just consumed. */
    method ScanLexeme(c: char) returns (t: Token)
      requires Valid() && current == start + 1 && c == source[start] && !AtTrivia(source, start)
      modifies this`current, this`line, this`tokens
      ensures Valid()
      ensures Scanned(t, current, line) == LexemeAt(source, start, old(line))
      ensures tokens == old(tokens) + [t]
    {
      var single := SingleCharKind(c);
      if single.Some? {
        t := AddToken(single.value);
      } else if c == '!' {
        t := ScanOperator(BangEqual, Bang);
      } else if c == '=' {
        t := ScanOperator(EqualEqual, Equal);
      } else if c == '>' {
        t := ScanOperator(GreaterEqual, Greater);
      } else if c == '<' {
        t := ScanOperator(LessEqual, Less);
      } else if c == '/' {
        var _ := Match('/');
        t := AddToken(Slash);
      } else if c == '"' {
        t := ScanString();
      } else if IsDigit(c) {
        t := ScanNumber();
      } else if IsAlpha(c) {
        t := ScanIdentifier();
      } else {
        t := AddTokenLiteral(TokenError, Some(Str(UnexpectedMessage)));
      }
    }

    /** scan_token: skips whitespace and comments (the source re-enters
        scan_token for them; here the loop goes round again), then scans and
        records one token. */
    method ScanToken() returns (t: Token)
      requires Valid()
      modifies this`start, this`current, this`line, this`tokens
      ensures Valid()
      ensures Scanned(t, current, line) == ScanFrom(source, old(current), old(line))
      ensures start == SkipTrivia(source, old(current), old(line)).current
      ensures tokens == old(tokens) + [t]
    {
      var c := '\0';
      while true
        invariant Valid()
        invariant SkipTrivia(source, current, line) == SkipTrivia(source, old(current), old(line))
        invariant tokens == old(tokens)
        decreases |source| - current
      {
        start := current;
        if ScanFinished() {
          t := AddToken(Eof);
          return;
        }
        c := Advance();
        if c == '/' && Peek() == '/' {
          var _ := Match('/');
          AdvanceWhile(NotNewline);
        } else if c == ' ' || c == '\r' || c == '\t' {
        } else if c == '\n' {
          line := line + 1;
        } else {
          break;
        }
      }
      t := ScanLexeme(c);
    }

    /** scan_tokens: replaces the source and scans until (and including) the
        first EOF token, collecting every token in `tokens`. */
    method ScanTokens(input: string)
      requires start <= current <= |input|
      modifies this`source, this`start, this`current, this`line, this`tokens
      ensures Valid() && source == input
      ensures tokens == old(tokens) + ScanAll(input, old(current), old(line))
      ensures start == current == |input|
      ensures |tokens| > 0 && tokens[|tokens| - 1] == Token(Eof, EofLexeme, None, line)
    {
      source := input;
      while true
        invariant Valid() && source == input
        invariant old(tokens) + ScanAll(input, old(current), old(line)) == tokens + ScanAll(input, current, line)
        decreases |source| - current
      {
        ghost var (before, cur0, line0) := (tokens, current, line);
        var token := ScanToken();
        ScanAllStep(source, cur0, line0);
        if token.kind == Eof {
          return;
        }
        AppendAssoc(before, [token], ScanAll(source, current, line));
      }
    }
  }
}
