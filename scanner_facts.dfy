/** Properties of the scanner's functional statement ScanFrom/ScanAll: what
    each kind of lexeme produces, how lines are counted, and that EOF is the
    last token and is repeated once reached. */
module ScannerFacts {
  import opened Wrappers
  import opened Scanner

  lemma {:induction false} NewlinesAppend(s: string, t: string)
    ensures Newlines(s + t) == Newlines(s) + Newlines(t)
    decreases |t|
  {
    if t == [] {
      assert s + t == s;
    } else {
      assert (s + t)[..|s + t| - 1] == s + t[..|t| - 1];
      NewlinesAppend(s, t[..|t| - 1]);
    }
  }

  lemma {:induction false} NewlinesNone(s: string)
    requires forall k | 0 <= k < |s| :: s[k] != '\n'
    ensures Newlines(s) == 0
    decreases |s|
  {
    if s != [] {
      NewlinesNone(s[..|s| - 1]);
    }
  }

  lemma NewlinesSplit(s: string, a: nat, m: nat, b: nat)
    requires a <= m <= b <= |s|
    ensures Newlines(s[a..b]) == Newlines(s[a..m]) + Newlines(s[m..b])
  {
    assert s[a..b] == s[a..m] + s[m..b];
    NewlinesAppend(s[a..m], s[m..b]);
  }

  /** A stretch of source without a newline in it does not move the line. */
  lemma NoNewlineBetween(s: string, a: nat, b: nat)
    requires a <= b <= |s|
    requires forall k | a <= k < b :: s[k] != '\n'
    ensures Newlines(s[a..b]) == 0
  {
    NewlinesNone(s[a..b]);
  }

  /** `!`, `=`, `>` and `<` take one more character exactly when it is `=`,
      and then give the two-character kind. */
  lemma OperatorAtShape(src: string, cur: nat, line: nat, long: TokenType, short: TokenType)
    requires cur < |src|
    ensures var r := OperatorAt(src, cur, line, long, short);
      && (r.current == cur + 1 || r.current == cur + 2)
      && r.current <= |src| && r.token.lexeme == src[cur..r.current] && r.line == line == r.token.line
      && (r.current == cur + 2 <==> cur + 1 < |src| && src[cur + 1] == '=')
      && r.token.kind == (if r.current == cur + 2 then long else short)
  {
  }

  /** A string token ends just after its closing quote and carries the text
      between the quotes; without a closing quote it is the unterminated
      error and runs to the end of the source. */
  lemma StringAtShape(src: string, cur: nat, line: nat)
    requires cur < |src|
    ensures var r := StringAt(src, cur, line);
      && cur < r.current <= |src| && r.token.lexeme == src[cur..r.current]
      && (r.token.kind == String || r.token.kind == TokenError)
      && (r.token.kind == String ==>
            cur + 2 <= r.current && src[r.current - 1] == '"' && r.token.literal == Some(Str(src[cur + 1..r.current - 1])))
      && (r.token.kind == TokenError ==> r.current == |src| && r.token.literal == Some(Str(UnterminatedMessage)))
      && r.line >= line && r.token.line == r.line
  {
  }

  /** A number token consumes at least its first digit and carries the
      value of its lexeme. */
  lemma NumberAtShape(src: string, cur: nat, line: nat)
    requires cur < |src|
    ensures var r := NumberAt(src, cur, line);
      && cur < r.current <= |src| && r.token.lexeme == src[cur..r.current]
      && r.token.kind == Number && r.token.literal == Some(Num(NumberValue(r.token.lexeme)))
      && r.line == line == r.token.line
  {
  }

  /** A word runs to the first character that is not alphanumeric; a
      keyword gets its own kind and any other word IDENTIFIER. */
  lemma IdentifierAtShape(src: string, cur: nat, line: nat)
    requires cur < |src|
    ensures var r := IdentifierAt(src, cur, line);
      && cur < r.current <= |src| && r.token.lexeme == src[cur..r.current]
      && (r.current == |src| || !IsAlphaNumeric(src[r.current]))
      && (r.token.lexeme in Keywords ==> r.token.kind == Keywords[r.token.lexeme] != Identifier)
      && (r.token.lexeme !in Keywords ==> r.token.kind == Identifier)
      && r.line == line == r.token.line
  {
  }

  /** A string's line moves by the newlines inside it; its quotes are not
      newlines. */
  lemma StringLines(src: string, cur: nat, line: nat)
    requires cur < |src| && src[cur] == '"'
    ensures StringAt(src, cur, line).line == line + Newlines(src[cur..StringAt(src, cur, line).current])
  {
    var close := Span(src, cur + 1, NotQuote);
    NewlinesSplit(src, cur, cur + 1, close);
    NoNewlineBetween(src, cur, cur + 1);
    if close < |src| {
      NewlinesSplit(src, cur, close, close + 1);
      NoNewlineBetween(src, close, close + 1);
    }
  }

  /** A number lexeme holds only digits and at most one `.`. */
  lemma NumberHasNoNewline(src: string, cur: nat)
    requires cur < |src| && IsDigit(src[cur])
    ensures forall k | cur <= k < NumberEnd(src, cur) :: src[k] != '\n'
  {
    var intEnd := Span(src, cur + 1, Digits);
    SpanRun(src, cur + 1, Digits);
    if intEnd + 1 < |src| && src[intEnd] == '.' && IsDigit(src[intEnd + 1]) {
      SpanRun(src, intEnd + 1, Digits);
    }
  }

  /** A word holds only letters and digits. */
  lemma WordHasNoNewline(src: string, cur: nat)
    requires cur < |src| && IsAlpha(src[cur])
    ensures forall k | cur <= k < Span(src, cur + 1, AlphaNumerics) :: src[k] != '\n'
  {
    SpanRun(src, cur + 1, AlphaNumerics);
  }

  /** The characters of a token other than a string never include a newline,
      and a string's newlines are counted into its line. */
  lemma LexemeLines(src: string, cur: nat, line: nat)
    requires cur < |src| && !AtTrivia(src, cur)
    ensures LexemeAt(src, cur, line).line == line + Newlines(src[cur..LexemeAt(src, cur, line).current])
  {
    var r := LexemeAt(src, cur, line);
    var c := src[cur];
    if SingleCharKind(c).Some? || c == '!' || c == '=' || c == '>' || c == '<' || c == '/' {
      NoNewlineBetween(src, cur, r.current);
    } else if c == '"' {
      StringLines(src, cur, line);
    } else if IsDigit(c) {
      NumberHasNoNewline(src, cur);
      NoNewlineBetween(src, cur, r.current);
    } else if IsAlpha(c) {
      WordHasNoNewline(src, cur);
      NoNewlineBetween(src, cur, r.current);
    } else {
      NoNewlineBetween(src, cur, r.current);
    }
  }

  /** Skipping trivia adds one line per newline passed over. */
  lemma {:induction false} TriviaLines(src: string, cur: nat, line: nat)
    requires cur <= |src|
    ensures SkipTrivia(src, cur, line).line == line + Newlines(src[cur..SkipTrivia(src, cur, line).current])
    decreases |src| - cur
  {
    if cur == |src| {
    } else if src[cur] == '/' && cur + 1 < |src| && src[cur + 1] == '/' {
      var e := Span(src, cur + 2, NotNewline);
      TriviaLines(src, e, line);
      CommentLines(src, cur, line);
    } else if src[cur] == ' ' || src[cur] == '\r' || src[cur] == '\t' || src[cur] == '\n' {
      var nextLine := if src[cur] == '\n' then line + 1 else line;
      TriviaLines(src, cur + 1, nextLine);
      BlankLines(src, cur, line);
    }
  }

  /** The comment step of TriviaLines: a comment holds no newline. */
  lemma CommentLines(src: string, cur: nat, line: nat)
    requires cur + 1 < |src| && src[cur] == '/' && src[cur + 1] == '/'
    requires var e := Span(src, cur + 2, NotNewline);
      SkipTrivia(src, e, line).line == line + Newlines(src[e..SkipTrivia(src, e, line).current])
    ensures SkipTrivia(src, cur, line).line == line + Newlines(src[cur..SkipTrivia(src, cur, line).current])
  {
    var e := Span(src, cur + 2, NotNewline);
    var p := SkipTrivia(src, cur, line);
    assert p == SkipTrivia(src, e, line);
    SpanRun(src, cur + 2, NotNewline);
    NewlinesSplit(src, cur, e, p.current);
    NoNewlineBetween(src, cur, e);
  }

  /** The whitespace step of TriviaLines: one line more exactly for `\n`. */
  lemma BlankLines(src: string, cur: nat, line: nat)
    requires cur < |src| && (src[cur] == ' ' || src[cur] == '\r' || src[cur] == '\t' || src[cur] == '\n')
    requires var nextLine := if src[cur] == '\n' then line + 1 else line;
      SkipTrivia(src, cur + 1, nextLine).line == nextLine + Newlines(src[cur + 1..SkipTrivia(src, cur + 1, nextLine).current])
    ensures SkipTrivia(src, cur, line).line == line + Newlines(src[cur..SkipTrivia(src, cur, line).current])
  {
    var nextLine := if src[cur] == '\n' then line + 1 else line;
    var p := SkipTrivia(src, cur, line);
    assert p == SkipTrivia(src, cur + 1, nextLine);
    NewlinesSplit(src, cur, cur + 1, p.current);
    assert src[cur..cur + 1] == [src[cur]];
    assert Newlines([src[cur]]) == Newlines([]) + (if src[cur] == '\n' then 1 else 0);
  }

  /** Every `\n` the scanner passes over, whether between tokens or inside a
      string, adds one to `line`, and nothing else does. */
  lemma LineCountsNewlines(src: string, cur: nat, line: nat)
    requires cur <= |src|
    ensures ScanFrom(src, cur, line).line == line + Newlines(src[cur..ScanFrom(src, cur, line).current])
  {
    var p := SkipTrivia(src, cur, line);
    var r := ScanFrom(src, cur, line);
    TriviaLines(src, cur, line);
    if p.current < |src| {
      LexemeLines(src, p.current, p.line);
      NewlinesSplit(src, cur, p.current, r.current);
    }
  }

  /** A `//` comment is skipped up to, not including, the next newline (or
      to the end of the source) and produces no token of its own. */
  lemma CommentSkipped(src: string, cur: nat, line: nat, e: nat)
    requires cur + 2 <= e <= |src| && src[cur] == '/' && src[cur + 1] == '/'
    requires forall k | cur + 2 <= k < e :: src[k] != '\n'
    requires e == |src| || src[e] == '\n'
    ensures ScanFrom(src, cur, line) == ScanFrom(src, e, line)
  {
    SpanUnique(src, cur + 2, e, NotNewline);
  }

  /** Spaces, tabs and carriage returns produce no token; a newline produces
      none either but moves to the next line. */
  lemma WhitespaceSkipped(src: string, cur: nat, line: nat)
    requires cur < |src| && (src[cur] == ' ' || src[cur] == '\t' || src[cur] == '\r' || src[cur] == '\n')
    ensures ScanFrom(src, cur, line) == ScanFrom(src, cur + 1, if src[cur] == '\n' then line + 1 else line)
  {
  }

  /** Each of `( ) { } , . - + ; *` is a token of its own kind, its lexeme the
      character, on line 1 of a one-character source, followed by EOF. */
  lemma SingleCharacter(c: char)
    requires SingleCharKind(c).Some?
    ensures ScanAll([c], 0, 1) == [Token(SingleCharKind(c).value, [c], None, 1), Token(Eof, EofLexeme, None, 1)]
  {
    assert !AtTrivia([c], 0);
    assert [c][0..1] == [c];
    assert ScanFrom([c], 0, 1) == LexemeAt([c], 0, 1);
    ScanAllStep([c], 0, 1);
    ScanAllStep([c], 1, 1);
  }

  /** `!`, `=`, `>` and `<` take a directly following `=` into a two-character
      token and are a one-character token otherwise. */
  lemma Operators(src: string, cur: nat, line: nat)
    requires cur < |src| && (src[cur] == '!' || src[cur] == '=' || src[cur] == '>' || src[cur] == '<')
    ensures var r := ScanFrom(src, cur, line);
      var two := cur + 1 < |src| && src[cur + 1] == '=';
      && r.current == (if two then cur + 2 else cur + 1)
      && r.token.lexeme == src[cur..r.current]
      && r.token.line == line && r.token.literal == None
      && r.token.kind == match src[cur]
        case '!' => (if two then BangEqual else Bang)
        case '=' => (if two then EqualEqual else Equal)
        case '>' => (if two then GreaterEqual else Greater)
        case _ => (if two then LessEqual else Less)
  {
  }

  /** A terminated string: the lexeme runs from quote to quote inclusive, the
      literal is the text strictly between them, and the token carries the
      line on which the string ends. */
  lemma StringLiteral(src: string, cur: nat, line: nat, close: nat)
    requires cur < close < |src| && src[cur] == '"' && src[close] == '"'
    requires forall k | cur < k < close :: src[k] != '"'
    ensures var r := ScanFrom(src, cur, line);
      && r.token == Token(String, src[cur..close + 1], Some(Str(src[cur + 1..close])), line + Newlines(src[cur + 1..close]))
      && r.current == close + 1 && r.line == r.token.line
  {
    ScanAtLexeme(src, cur, line);
    assert LexemeAt(src, cur, line) == StringAt(src, cur, line);
    SpanUnique(src, cur + 1, close, NotQuote);
  }

  /** A string with no closing quote runs to the end of the source and is an
      error token "Unterminated string". */
  lemma UnterminatedString(src: string, cur: nat, line: nat)
    requires cur < |src| && src[cur] == '"'
    requires forall k | cur < k < |src| :: src[k] != '"'
    ensures var r := ScanFrom(src, cur, line);
      && r.token == Token(TokenError, src[cur..], Some(Str(UnterminatedMessage)), line + Newlines(src[cur + 1..]))
      && r.current == |src|
  {
    ScanAtLexeme(src, cur, line);
    assert LexemeAt(src, cur, line) == StringAt(src, cur, line);
    SpanUnique(src, cur + 1, |src|, NotQuote);
    assert src[cur..|src|] == src[cur..] && src[cur + 1..|src|] == src[cur + 1..];
  }

  /** A word is a letter followed by the longest run of letters and digits;
      it is the keyword's kind when it is in the keyword table and an
      identifier otherwise. */
  lemma Word(src: string, cur: nat, line: nat, e: nat)
    requires cur < e <= |src| && IsAlpha(src[cur])
    requires forall k | cur < k < e :: IsAlphaNumeric(src[k])
    requires e == |src| || !IsAlphaNumeric(src[e])
    ensures var r := ScanFrom(src, cur, line);
      var w := src[cur..e];
      r == Scanned(Token(if w in Keywords then Keywords[w] else Identifier, w, None, line), e, line)
  {
    SpanUnique(src, cur + 1, e, AlphaNumerics);
  }

  /** "this" is missing from the keyword table, so it scans as an identifier. */
  lemma ThisIsIdentifier()
    ensures ScanFrom("this", 0, 1).token == Token(Identifier, "this", None, 1)
  {
    Word("this", 0, 1, 4);
  }

  /** Scanning from a character that starts no trivia goes straight to the
      lexeme at that character. */
  lemma ScanAtLexeme(src: string, cur: nat, line: nat)
    requires cur < |src| && !AtTrivia(src, cur)
    ensures ScanFrom(src, cur, line) == LexemeAt(src, cur, line)
  {
    assert SkipTrivia(src, cur, line) == Position(cur, line);
  }

  /** A number without a fraction is the maximal digit run, provided no `.`
      followed by a digit comes after it. */
  lemma IntegerNumber(src: string, cur: nat, line: nat, i: nat)
    requires cur < i <= |src|
    requires forall k | cur <= k < i :: IsDigit(src[k])
    requires i == |src| || !IsDigit(src[i])
    requires !(i + 1 < |src| && src[i] == '.' && IsDigit(src[i + 1]))
    ensures ScanFrom(src, cur, line)
      == Scanned(Token(Number, src[cur..i], Some(Num(NumberValue(src[cur..i]))), line), i, line)
  {
    ScanAtLexeme(src, cur, line);
    SpanUnique(src, cur + 1, i, Digits);
    assert NumberEnd(src, cur) == i;
  }

  /** A `.` followed by a digit extends the number over the `.` and the
      maximal digit run after it. */
  lemma DecimalNumber(src: string, cur: nat, line: nat, i: nat, j: nat)
    requires cur < i && i + 1 < j <= |src| && src[i] == '.'
    requires forall k | cur <= k < i :: IsDigit(src[k])
    requires forall k | i + 1 <= k < j :: IsDigit(src[k])
    requires j == |src| || !IsDigit(src[j])
    ensures ScanFrom(src, cur, line)
      == Scanned(Token(Number, src[cur..j], Some(Num(NumberValue(src[cur..j]))), line), j, line)
  {
    ScanAtLexeme(src, cur, line);
    DecimalEnd(src, cur, i, j);
  }

  lemma DecimalEnd(src: string, cur: nat, i: nat, j: nat)
    requires cur < i && i + 1 < j <= |src| && src[i] == '.'
    requires forall k | cur <= k < i :: IsDigit(src[k])
    requires forall k | i + 1 <= k < j :: IsDigit(src[k])
    requires j == |src| || !IsDigit(src[j])
    ensures NumberEnd(src, cur) == j
  {
    SpanUnique(src, cur + 1, i, Digits);
    SpanUnique(src, i + 1, j, Digits);
  }

  /** The literal of a number lexeme is its decimal value: "3.25" is 3.25. */
  lemma NumberValueExample()
    ensures ScanFrom("3.25", 0, 1).token == Token(Number, "3.25", Some(Num(3.25)), 1)
  {
    DecimalNumber("3.25", 0, 1, 1, 4);
    assert "3.25"[0..4] == "3.25";
    DecimalValue();
  }

  lemma DecimalValue()
    ensures NumberValue("3.25") == 3.25
  {
    assert Span("3.25", 0, Digits) == 1;
    assert "3.25"[..1] == "3" && "3.25"[2..] == "25";
    assert "25"[..1] == "2";
  }

  /** A `.` not followed by a digit is not part of the number: "1." scans
      the number 1 and leaves the scanner at the `.`. */
  lemma TrailingDot()
    ensures ScanFrom("1.", 0, 1) == Scanned(Token(Number, "1", Some(Num(1.0)), 1), 1, 1)
  {
    IntegerNumber("1.", 0, 1, 1);
    assert "1."[0..1] == "1" && "1"[..0] == "";
    assert NumberValue("1") == 1.0;
  }

  /** Any character that starts no lexeme is an error token "Unexpected
      character" holding just that character. */
  lemma UnexpectedCharacter(src: string, cur: nat, line: nat)
    requires cur < |src| && !AtTrivia(src, cur) && SingleCharKind(src[cur]).None?
    requires src[cur] !in "!=<>/\"" && !IsDigit(src[cur]) && !IsAlpha(src[cur])
    ensures ScanFrom(src, cur, line)
      == Scanned(Token(TokenError, [src[cur]], Some(Str(UnexpectedMessage)), line), cur + 1, line)
  {
    assert src[cur..cur + 1] == [src[cur]];
  }

  /** Once EOF has been produced the scanner stands at the end of the source,
      and every further call produces the same EOF again. */
  lemma EofRepeats(src: string, cur: nat, line: nat)
    requires cur <= |src|
    requires ScanFrom(src, cur, line).token.kind == Eof
    ensures var r := ScanFrom(src, cur, line); ScanFrom(src, r.current, r.line) == r
  {
  }

  /** scan_tokens collects tokens up to the first EOF: EOF is the last token
      and appears nowhere else. */
  lemma {:induction false} EofOnlyAtEnd(src: string, cur: nat, line: nat)
    requires cur <= |src|
    ensures var ts := ScanAll(src, cur, line);
      forall k | 0 <= k < |ts| :: (ts[k].kind == Eof <==> k == |ts| - 1)
    decreases |src| - cur
  {
    var r := ScanFrom(src, cur, line);
    ScanAllStep(src, cur, line);
    if r.token.kind != Eof {
      EofOnlyAtEnd(src, r.current, r.line);
    }
  }

  /** The lines carried by the collected tokens never decrease. */
  lemma {:induction false} LinesAscend(src: string, cur: nat, line: nat)
    requires cur <= |src|
    ensures var ts := ScanAll(src, cur, line);
      forall k | 0 <= k < |ts| :: line <= ts[k].line && (k + 1 < |ts| ==> ts[k].line <= ts[k + 1].line)
    decreases |src| - cur
  {
    var r := ScanFrom(src, cur, line);
    ScanAllStep(src, cur, line);
    if r.token.kind != Eof {
      LinesAscend(src, r.current, r.line);
    }
  }
}
