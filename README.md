# A verified model of a Lox interpreter's core

This project models, in Dafny, the deterministic core of a Rust implementation of
the Lox language whose files are at different stages of a rewrite from a
tree-walking interpreter to a bytecode virtual machine:

- **Scanner** (`src/scanner.rs`): the character-level lexer. `start`, `current`
  and `line` move character by character. Each call of `scan_token` pushes one
  token onto `tokens` and returns it. It handles one- and two-character
  operators, `//` comments, whitespace, strings, numbers, identifiers and the
  16-word keyword table. Anything else is an error token.
  The class `Scanner.Scanner` keeps these fields. The function `Scanner.ScanFrom`
  says what one call yields, and `Scanner.ScanAll` what repeated calls yield up
  to `EOF`.
- **Single-pass compiler** (`src/compiler.rs`): a Pratt parser over the scanner's
  tokens that emits `(OpCode, line)` pairs and constants into a chunk.
  - Error recovery uses the `panic_mode`/`had_error` flags and `synchronize`.
  - The class `Compiler.Compiler` keeps the fields of the source's `Compiler`.
  - Every method is proved equal to a state-transformer function on the value
    `CState` of those fields (`AfterAdvance`, `AfterParsePrecedence`, ...).
  - `CompilerFacts` proves what those functions promise: operator encodings,
    postfix order, left associativity, statement shapes, error reporting and
    recovery, and valid pool indices.
- **Bytecode** (`src/bytecode.rs`): values, the opcode set the compiler emits and
  the chunk (code plus constant pool).
- **Recursive-descent parser** (`src/parser.rs`): builds expression trees
  (`src/expr.rs`) over the tiers equality, comparison, term, factor, unary and
  primary, with a cursor over a token sequence.
  - The class `Parser.Parser` holds the cursor.
  - Its methods are proved equal to the functions `ExpressionAt`, `TierAt`,
    `UnaryAt` and `PrimaryAt`.
  - `ParserFacts` proves precedence and left associativity about those
    functions.
- **Tree-walking evaluator** (`src/interpreter.rs`): the type-dispatch table of
  unary and binary operators, and error propagation.
- **Environment chain** (`src/enviroment.rs`): name-to-value maps linked through
  `enclosing`, with lookup and assignment that fall back to a global
  environment. The value type is generic.
- **Stack machine** (`src/virtual_machine.rs`): a LIFO stack and a `run` loop that
  executes `Constant` and `Return`.

The modules follow the source files:

| Dafny file | Source file |
|---|---|
| `scanner.dfy`, `scanner_facts.dfy` | `src/scanner.rs` |
| `bytecode.dfy` | `src/bytecode.rs` |
| `compiler.dfy`, `compiler_facts.dfy` | `src/compiler.rs` |
| `expr.dfy` | `src/expr.rs` |
| `parser.dfy`, `parser_facts.dfy` | `src/parser.rs` |
| `interpreter.dfy` | `src/interpreter.rs` |
| `enviroment.dfy` | `src/enviroment.rs` |
| `virtual_machine.dfy` | `src/virtual_machine.rs` |

`wrappers.dfy` holds Option and Result.

Where the files of the rewrite disagree, the model follows the code that uses
them:
- The opcode set is the union of what `src/compiler.rs` emits, whereas
  `src/bytecode.rs:4-7` declares only `Return` and `Constant`.
- The constant pool holds any Value, whereas `src/bytecode.rs:14-16` declares a
  pool of numbers only.

## Model

| member | source | states |
|---|---|---|
| Bytecode.CodeWellFormedEvery | src/bytecode.rs:9-12 | a chunk's code is well formed exactly when each of its instructions is: each Constant index is inside the pool, and each DefineGlobal index names a String constant |
| Bytecode.WellFormedPush | src/compiler.rs:65-67 | appending one well-formed instruction to a well-formed chunk keeps it well formed |
| Bytecode.WellFormedPool | src/compiler.rs:69-72 | appending a constant to the pool keeps every existing index valid |
| Scanner.Span | src/scanner.rs:229-277 | the inner loops' stopping point: it is not before its start, and it is at the end of the source or on the first character outside the class |
| Scanner.SpanRun | src/scanner.rs:229-277 | every character the loop passes over is in the class |
| Scanner.SpanUnique | src/scanner.rs:229-277 | a run of class characters ended by a non-class character or the end is exactly where the loop stops |
| Scanner.Newlines | src/scanner.rs:210-213 | the number of newlines in a text is at most its length |
| Scanner.NewlinesExtend | src/scanner.rs:260-264 | extending a text by one character raises the newline count by one exactly when that character is a newline |
| Scanner.NumberEnd | src/scanner.rs:245-258 | a number lexeme is non-empty and stays inside the source |
| Scanner.LexemeAt | src/scanner.rs:159-225 | a token read at a non-trivia character consumes at least that character, is never EOF, and carries the line the scanner ends on |
| Scanner.SkipTrivia | src/scanner.rs:199-213 | skipping comments and whitespace never moves back, never lowers the line, and stops on a character that is not trivia |
| Scanner.ScanFrom | src/scanner.rs:154-227 | one scan_token call: EOF exactly at the end of the source, with lexeme "EOF" and no literal; any other token consumes at least one character; neither current nor line decreases |
| Scanner.ScanAll | src/scanner.rs:144-153 | scan_tokens yields a non-empty token sequence whose last token is EOF |
| Scanner.ScanAllStep | src/scanner.rs:144-153 | scan_tokens is one scan_token followed, unless that gave EOF, by scan_tokens from where it stopped |
| Scanner.ScanAllAtEnd | src/scanner.rs:155-158 | scanning an exhausted source yields exactly one EOF token on the current line |
| Scanner.Scanner.Default | src/scanner.rs:106-134 | the default scanner has an empty source and no tokens, is at position 0 on line 1, and holds the keyword table |
| Scanner.Scanner.Scan | src/scanner.rs:94-98 | scan stores the source and scans nothing yet |
| Scanner.Scanner.Advance | src/scanner.rs:309-312 | returns the character at current and moves current one further |
| Scanner.Scanner.Peek | src/scanner.rs:314-319 | definition: NUL once the scan is finished, otherwise the character at current |
| Scanner.Scanner.PeekNext | src/scanner.rs:321-326 | definition: NUL when current + 1 is past the end, otherwise the character after current |
| Scanner.Scanner.ScanFinished | src/scanner.rs:329-331 | definition: current is at or past the end of the source |
| Scanner.Scanner.Match | src/scanner.rs:279-288 | consumes the expected character exactly when it is the next one, and otherwise changes nothing |
| Scanner.Scanner.AddTokenLiteral | src/scanner.rs:294-307 | pushes and returns a token whose lexeme is source[start..current], or "EOF" for the EOF kind, on the current line |
| Scanner.Scanner.AddToken | src/scanner.rs:290-292 | the same, without a literal |
| Scanner.Scanner.AdvanceWhile | src/scanner.rs:230-232 | current ends where the run of class characters ends |
| Scanner.OperatorAt | src/scanner.rs:171-198 | definition of the `!`, `=`, `>` and `<` arms; OperatorAtShape states its properties |
| ScannerFacts.OperatorAtShape | src/scanner.rs:171-198 | `!`, `=`, `>` and `<` take one more character exactly when it is `=`, and then give the two-character kind; the lexeme is the consumed text and the line is unchanged |
| Scanner.StringAt | src/scanner.rs:259-277 | definition of string; StringAtShape and StringLines state its properties |
| ScannerFacts.StringAtShape | src/scanner.rs:259-277 | a string token ends just after its closing quote and its literal is the text between the quotes; with no closing quote the token is the unterminated-string error and ends at the end of the source; the line never decreases |
| Scanner.NumberAt | src/scanner.rs:245-258 | definition of number; NumberAtShape states its properties |
| ScannerFacts.NumberAtShape | src/scanner.rs:245-258 | a NUMBER token consumes at least the first digit; its literal is the value of its lexeme and the line is unchanged |
| Scanner.IdentifierAt | src/scanner.rs:229-242 | definition of identifier; IdentifierAtShape states its properties |
| ScannerFacts.IdentifierAtShape | src/scanner.rs:229-242 | the word runs to the first non-alphanumeric character; a word in the keyword table gets the keyword's kind and any other word IDENTIFIER |
| Scanner.Scanner.ScanIdentifier | src/scanner.rs:229-242 | pushes the keyword's kind or IDENTIFIER for the maximal alphanumeric word, as IdentifierAt says |
| Scanner.Scanner.ScanNumber | src/scanner.rs:245-258 | pushes the maximal number lexeme and its value, as NumberAt says |
| Scanner.Scanner.SkipStringBody | src/scanner.rs:260-265 | stops at the closing quote or the end, counting the newlines it passes |
| Scanner.Scanner.ScanString | src/scanner.rs:259-277 | pushes the string token (lexeme with both quotes, literal the text between) or the unterminated-string error, as StringAt says |
| Scanner.Scanner.ScanLexeme | src/scanner.rs:160-225 | dispatch on the first character agrees with LexemeAt |
| Scanner.Scanner.ScanOperator | src/scanner.rs:171-198 | matches a following `=` and pushes the token OperatorAt describes |
| Scanner.Scanner.ScanToken | src/scanner.rs:154-227 | returns and pushes exactly the token ScanFrom gives, and leaves current and line where ScanFrom says; start is the first position of the lexeme, or the end of the source at EOF |
| Scanner.Scanner.ScanTokens | src/scanner.rs:144-153 | appends exactly ScanAll of the input from the old position to tokens; afterwards start and current stand at the end of the input, and the last token is EOF on the current line, which every later scan_token repeats (ScannerFacts.EofRepeats) |
| ScannerFacts.NewlinesAppend | src/scanner.rs:210-213 | the newline count of a concatenation is the sum of the counts |
| ScannerFacts.NewlinesNone | src/scanner.rs:210-213 | a text without newlines counts none |
| ScannerFacts.NewlinesSplit | src/scanner.rs:210-213 | the newline count of a slice splits at any midpoint |
| ScannerFacts.NoNewlineBetween | src/scanner.rs:210-213 | a newline-free slice counts none |
| ScannerFacts.StringLines | src/scanner.rs:259-270 | scanning a string raises line by the newlines inside it |
| ScannerFacts.NumberHasNoNewline | src/scanner.rs:245-255 | a number lexeme holds no newline |
| ScannerFacts.WordHasNoNewline | src/scanner.rs:229-239 | a word holds no newline |
| ScannerFacts.LexemeLines | src/scanner.rs:159-225 | reading any token raises line by exactly the newlines it consumed |
| ScannerFacts.TriviaLines | src/scanner.rs:199-213 | skipping trivia raises line by exactly the newlines skipped |
| ScannerFacts.LineCountsNewlines | src/scanner.rs:154-227 | after scan_token, line is the old line plus the newlines between the old and new current |
| ScannerFacts.CommentSkipped | src/scanner.rs:199-209 | a `//` comment up to the next newline or the end yields no token: scanning resumes at the newline |
| ScannerFacts.WhitespaceSkipped | src/scanner.rs:210-213 | space, tab and CR yield no token, and a newline yields none but increments line |
| ScannerFacts.SingleCharacter | src/scanner.rs:161-170 | each of the ten single characters alone scans to its kind, with itself as lexeme, on line 1, then EOF |
| ScannerFacts.Operators | src/scanner.rs:171-198 | `!`, `=`, `>`, `<` take a following `=` into a two-character token of the long kind, and otherwise yield the one-character kind |
| ScannerFacts.StringLiteral | src/scanner.rs:259-277 | a closed string yields STRING with both quotes in the lexeme, the text between them as literal, and the line after its newlines |
| ScannerFacts.UnterminatedString | src/scanner.rs:260-268 | a string that runs to the end yields TOKEN_ERROR "Unterminated string" and consumes the rest of the source |
| ScannerFacts.Word | src/scanner.rs:229-242 | a maximal word is its keyword kind when it is in the table, otherwise IDENTIFIER |
| ScannerFacts.ThisIsIdentifier | src/scanner.rs:114-131 | "this" is not in the table and scans as IDENTIFIER |
| ScannerFacts.ScanAtLexeme | src/scanner.rs:154-160 | at a non-trivia character scan_token is LexemeAt |
| ScannerFacts.IntegerNumber | src/scanner.rs:245-258 | a digit run not followed by `.` and a digit is the whole number lexeme, with its value as literal |
| ScannerFacts.DecimalNumber | src/scanner.rs:245-258 | digits, `.` and a further digit run form one number lexeme |
| ScannerFacts.DecimalEnd | src/scanner.rs:246-255 | the lexeme of a decimal number ends after the second digit run |
| ScannerFacts.NumberValueExample | src/scanner.rs:256-257 | "3.25" scans to NUMBER with value 3.25 |
| ScannerFacts.DecimalValue | src/scanner.rs:256 | the lexeme "3.25" denotes 3.25 |
| ScannerFacts.TrailingDot | src/scanner.rs:248-255 | in "1." the dot is not part of the number |
| ScannerFacts.UnexpectedCharacter | src/scanner.rs:216-224 | any other character yields TOKEN_ERROR "Unexpected character" with that character as lexeme |
| ScannerFacts.EofRepeats | src/scanner.rs:155-158 | scanning again after EOF yields the same EOF token and position |
| ScannerFacts.EofOnlyAtEnd | src/scanner.rs:144-153 | in scan_tokens' output EOF occurs once, as the last token |
| ScannerFacts.LinesAscend | src/scanner.rs:144-153 | token lines never decrease along scan_tokens' output and start at the starting line: each token takes the current line (line 301), which only grows (lines 213 and 262) |
| Compiler.GetRules | src/compiler.rs:241-263 | a kind has an infix rule exactly when its precedence is not none; infix rules are binary, between equality and factor; EOF has no rule |
| Compiler.OperandPrecedence | src/compiler.rs:324-325 | binary parses its right operand at a precedence of at least assignment |
| Compiler.BinaryOps | src/compiler.rs:327-339 | an operator compiles to at most two instructions, none of which indexes the pool |
| Compiler.SkipErrors | src/compiler.rs:41-44 | the loop of advance keeps previous and the chunk, never moves back, never clears had_error, only adds reports, and stops on a non-error token |
| Compiler.SkipOne | src/compiler.rs:42-43 | one turn of that loop scans exactly one more token |
| Compiler.AfterAdvance | src/compiler.rs:37-45 | advance keeps the chunk, sets previous to the old current, and moves past every token but EOF |
| Compiler.AfterTokenMatch | src/compiler.rs:142-148 | token_match is true exactly when current has the kind; false changes nothing |
| Compiler.AfterConsume | src/compiler.rs:47-54 | consume never changes the chunk |
| Compiler.EmitByteGrows | src/compiler.rs:56-58 | emitting a well-formed instruction only appends to the code and keeps the chunk well formed |
| Compiler.PushConstantGrows | src/compiler.rs:69-72 | adding a constant only appends to the pool |
| Compiler.EmitConstantGrows | src/compiler.rs:175-178 | emit_constant only appends, and its Constant index is the new last one |
| Compiler.ParseErrorGrows | src/compiler.rs:191-201 | parse_error keeps the chunk and never clears had_error |
| Compiler.AfterParsePrecedence | src/compiler.rs:151-173 | parse_precedence stops in front of a token whose precedence is below the one asked for, unless in panic mode, and consumes at least one token when not at EOF |
| Compiler.AfterInfixLoop | src/compiler.rs:159-169 | the infix loop ends on a token of lower precedence |
| Compiler.AfterInfixStep | src/compiler.rs:160-168 | one turn of the infix loop consumes at least one token |
| Compiler.AfterAssignCheck | src/compiler.rs:166-168 | the invalid-assignment check only reports or consumes |
| Compiler.AfterRule | src/compiler.rs:153-164 | applying a prefix or infix rule keeps the compiler invariant |
| Compiler.AfterExpression | src/compiler.rs:78-80 | expression consumes at least one token when not at EOF |
| Compiler.AfterGrouping | src/compiler.rs:286-289 | grouping keeps the compiler invariant |
| Compiler.AfterValueLiteral | src/compiler.rs:291-305 | value_literal only appends to the chunk |
| Compiler.AfterUnary | src/compiler.rs:308-320 | unary keeps the compiler invariant |
| Compiler.EmitUnary | src/compiler.rs:315-319 | the operator instruction of unary only appends |
| Compiler.AfterBinary | src/compiler.rs:322-340 | binary keeps the compiler invariant |
| Compiler.BinaryUnfold | src/compiler.rs:322-340 | binary is its right operand at OperandPrecedence followed by the operator's instructions |
| Compiler.AfterEmitOperator | src/compiler.rs:327-339 | the operator instructions of binary only append |
| Compiler.EmitBytesGrows | src/compiler.rs:60-63 | emit_bytes appends both instructions in order |
| Compiler.AfterLiteral | src/compiler.rs:342-349 | literal only appends to the chunk |
| Compiler.AfterNamedVariable | src/compiler.rs:355-364 | named_variable keeps the compiler invariant |
| Compiler.AfterSynchronize | src/compiler.rs:203-224 | synchronize never changes the chunk |
| Compiler.SyncLoop | src/compiler.rs:206-223 | synchronize stops at EOF, after `;`, or in front of a statement keyword |
| Compiler.AfterParseVariable | src/compiler.rs:106-112 | parse_variable returns an index of a String constant in the pool |
| Compiler.AfterVarDeclaration | src/compiler.rs:93-104 | a var declaration keeps the compiler invariant |
| Compiler.AfterPrintStatement | src/compiler.rs:130-134 | a print statement consumes at least one token when not at EOF |
| Compiler.AfterExpressionStatement | src/compiler.rs:136-140 | an expression statement consumes at least one token when not at EOF |
| Compiler.AfterStatement | src/compiler.rs:122-128 | a statement consumes at least one token when not at EOF |
| Compiler.AfterDeclaration | src/compiler.rs:82-91 | a declaration consumes at least one token when not at EOF |
| Compiler.DeclarationsLoop | src/compiler.rs:8-10 | the declaration loop of compile keeps the compiler invariant and terminates |
| Compiler.Compiled | src/compiler.rs:4-14 | the compiled chunk has valid pool indices and its last instruction is Return |
| Compiler.Compiler.constructor | src/compiler.rs:25-34 | compiler_initalize: placeholder tokens, both flags clear, an empty chunk, nothing scanned |
| Compiler.Compiler.ScanToken | src/scanner.rs:154-158 | hands out the next token, and EOF again once the tokens are used up |
| Compiler.Compiler.ParseError | src/compiler.rs:191-201 | does nothing in panic mode, otherwise sets both flags and records one report |
| Compiler.Compiler.ParseErrorToken | src/compiler.rs:180-188 | reports an error token with its literal text as message |
| Compiler.Compiler.Advance | src/compiler.rs:37-45 | changes the fields as AfterAdvance says |
| Compiler.Compiler.SkipErrorTokens | src/compiler.rs:41-44 | the while loop of advance, as SkipErrors says |
| Compiler.Compiler.Consume | src/compiler.rs:47-54 | changes the fields as AfterConsume says |
| Compiler.Compiler.TokenMatch | src/compiler.rs:142-148 | returns and changes the fields as AfterTokenMatch says |
| Compiler.Compiler.ChunkWrite | src/compiler.rs:65-67 | appends one (instruction, line) pair and leaves the pool as it was |
| Compiler.Compiler.EmitByte | src/compiler.rs:56-58 | appends the instruction on previous's line |
| Compiler.Compiler.EmitBytes | src/compiler.rs:60-63 | appends the two instructions in order |
| Compiler.Compiler.EmitConstant | src/compiler.rs:175-178 | appends the value to the pool and a Constant of its index to the code |
| Compiler.Compiler.EndCompiler | src/compiler.rs:74-76 | appends Return |
| Compiler.Compiler.ParsePrecedence | src/compiler.rs:151-173 | the prefix rule, then the infix while loop, as AfterParsePrecedence says |
| Compiler.Compiler.InfixStep | src/compiler.rs:160-168 | one turn of the infix loop, as AfterInfixStep says |
| Compiler.Compiler.ApplyRule | src/compiler.rs:153-164 | dispatch on a rule's parse function, as AfterRule says |
| Compiler.Compiler.Expression | src/compiler.rs:78-80 | parses at assignment precedence, as AfterExpression says |
| Compiler.Compiler.Grouping | src/compiler.rs:286-289 | as AfterGrouping says |
| Compiler.Compiler.ValueLiteral | src/compiler.rs:291-305 | as AfterValueLiteral says |
| Compiler.Compiler.Unary | src/compiler.rs:308-320 | as AfterUnary says |
| Compiler.Compiler.EmitUnaryOp | src/compiler.rs:315-319 | emits Negate for `-`, Not for `!`, and nothing otherwise |
| Compiler.Compiler.Binary | src/compiler.rs:322-340 | as AfterBinary says |
| Compiler.Compiler.EmitOperator | src/compiler.rs:327-339 | emits the operator's instructions, as AfterEmitOperator says |
| Compiler.Compiler.Literal | src/compiler.rs:342-349 | as AfterLiteral says |
| Compiler.Compiler.Variable | src/compiler.rs:351-353 | named_variable on previous |
| Compiler.Compiler.NamedVariable | src/compiler.rs:355-364 | as AfterNamedVariable says |
| Compiler.Compiler.Synchronize | src/compiler.rs:203-224 | as AfterSynchronize says |
| Compiler.Compiler.ParseVariable | src/compiler.rs:106-116 | returns the index and changes the fields as AfterParseVariable says |
| Compiler.Compiler.DefineVariable | src/compiler.rs:118-120 | appends DefineGlobal of the index |
| Compiler.Compiler.DeclarationVar | src/compiler.rs:93-104 | as AfterVarDeclaration says |
| Compiler.Compiler.StatementPrint | src/compiler.rs:130-134 | as AfterPrintStatement says |
| Compiler.Compiler.StatementExpression | src/compiler.rs:136-140 | as AfterExpressionStatement says |
| Compiler.Compiler.Statement | src/compiler.rs:122-128 | as AfterStatement says |
| Compiler.Compiler.CompileTokens | src/compiler.rs:5-13 | the body of compile returns exactly Compiled of the tokens |
| Compiler.Compiler.Declaration | src/compiler.rs:82-91 | as AfterDeclaration says |
| Compiler.Compile | src/compiler.rs:4-14 | compile always returns Some chunk, even after errors; the chunk is Compiled of the scanned tokens, has valid indices and ends in Return |
| CompilerFacts.SkipErrorsReports | src/compiler.rs:37-45 | every token the loop skips is an error token; without one nothing changes; with one, panic mode is set and only the first error is reported |
| CompilerFacts.AdvanceReports | src/compiler.rs:37-45 | after advance current is never an error token; the tokens skipped were errors; a clean scan changes no report or flag; an error scan sets panic mode and reports the first error |
| CompilerFacts.ParseErrorFlags | src/compiler.rs:191-201 | in panic mode parse_error changes nothing; otherwise it sets both flags and appends exactly one report; it never touches the chunk or the cursor |
| Compiler.AfterParseError | src/compiler.rs:191-201 | definition; ParseErrorFlags states its properties |
| Compiler.AfterParseErrorToken | src/compiler.rs:180-189 | outside panic mode exactly one report is added, and its message is the token's string literal, or none when the token has no string literal |
| CompilerFacts.SyncLoopPanics | src/compiler.rs:206-223 | the synchronize loop leaves panic mode set only if it was set already or a new error was reported |
| CompilerFacts.SynchronizeRecovers | src/compiler.rs:203-224 | synchronize stops at a statement boundary; at one already it only clears panic mode; a panic left over implies a new report; the chunk is untouched and had_error is never cleared |
| CompilerFacts.BinaryOpsTwo | src/compiler.rs:332-337 | exactly `!=`, `>=` and `<=` compile to two instructions |
| CompilerFacts.BinaryOpsOne | src/compiler.rs:328-336 | exactly `+ - * / == < >` compile to one instruction |
| CompilerFacts.BinaryOpsCoverRules | src/compiler.rs:241-263 | binary emits something exactly for the kinds that have an infix rule |
| CompilerFacts.BinaryOpsComplement | src/compiler.rs:332-337 | `!=`, `>=` and `<=` are the code of `==`, `<` and `>` followed by Not |
| CompilerFacts.AtLine | src/compiler.rs:56-63 | the instructions paired with one line, in order |
| CompilerFacts.EmitOperatorCode | src/compiler.rs:327-339 | the operator step appends exactly the operator's instructions on previous's line |
| CompilerFacts.BinaryPostfix | src/compiler.rs:322-340 | binary's code is the left operand's code, then the right operand's, then the operator's instructions: postfix order |
| CompilerFacts.BinaryLeftAssociative | src/compiler.rs:322-325 | the right operand stops in front of any operator of the same or a looser tier, so same-tier operators associate to the left |
| CompilerFacts.UnaryOperandHasNoInfix | src/compiler.rs:308-312 | the operand of unary takes no binary operator |
| CompilerFacts.StatementShapes | src/compiler.rs:130-140 | print is the expression's code then Print; an expression statement is the expression's code then Pop |
| CompilerFacts.ParseVariableShape | src/compiler.rs:106-116 | parse_variable adds the name as a new last constant, returns its index and emits no code |
| CompilerFacts.VarDeclarationUnfold | src/compiler.rs:93-104 | var is the name, an initializer or nil, `;`, then DefineGlobal |
| CompilerFacts.VarDeclarationDefines | src/compiler.rs:93-104 | a var declaration ends in DefineGlobal of the index of the name's constant |
| CompilerFacts.VarDeclarationNil | src/compiler.rs:97-101 | without `=` it emits a Constant of a new Nil then DefineGlobal |
| CompilerFacts.VarDeclarationInitializer | src/compiler.rs:96-99 | with `=` it emits the initializer's code then DefineGlobal |
| CompilerFacts.NamedVariableShape | src/compiler.rs:355-364 | without `=` it emits GetGlobal of the name; with `=` and can_assign, the value's code then SetGlobal; with `=` but not can_assign, the `=` is consumed and GetGlobal emitted |
| CompilerFacts.CompiledIndicesValid | src/compiler.rs:4-14 | every Constant index of compiled code is inside the pool and every DefineGlobal names a String constant |
| CompilerFacts.RulesMatchTiers | src/compiler.rs:241-263 | the kinds with an infix rule are exactly the parser's tier operators, each at its tier's precedence |
| CompilerFacts.TierRule | src/compiler.rs:241-263 | a kind is a tier's operator exactly when its rule has that tier's precedence |
| CompilerFacts.EqualityRules | src/compiler.rs:255-256 | the equality kinds are those at equality precedence |
| CompilerFacts.ComparisonRules | src/compiler.rs:257-260 | the comparison kinds are those at comparison precedence |
| CompilerFacts.TermRules | src/compiler.rs:244-245 | the term kinds are those at term precedence |
| CompilerFacts.FactorRules | src/compiler.rs:246-247 | the factor kinds are those at factor precedence |
| CompilerFacts.TierOrder | src/compiler.rs:227-239 | a tier binds tighter in the parser exactly when its compiler precedence is higher |
| Parser.AdvanceFrom | src/parser.rs:123-128 | advance moves one further except on EOF, and so never past EOF |
| Parser.ExpressionAt | src/parser.rs:10-12 | expression never moves the cursor back or past EOF |
| Parser.TierAt | src/parser.rs:14-64 | each binary tier never moves the cursor back or past EOF |
| Parser.OperandAt | src/parser.rs:14-64 | the next tighter tier, likewise |
| Parser.TierRest | src/parser.rs:16-23 | a tier's while loop, likewise |
| Parser.UnaryAt | src/parser.rs:66-73 | unary, likewise |
| Parser.PrimaryAt | src/parser.rs:75-103 | primary, likewise |
| Parser.GroupingAt | src/parser.rs:95-99 | a parenthesised expression, likewise |
| Parser.Parser.constructor | src/parser.rs:4-7 | the cursor starts at the first token |
| Parser.Parser.Advance | src/parser.rs:123-128 | moves as AdvanceFrom says and returns tokens[current-1], the new previous |
| Parser.Parser.TokenMatch | src/parser.rs:105-113 | advances by exactly one when not at EOF and the current kind is listed, and otherwise changes nothing |
| Parser.Parser.Consume | src/parser.rs:95-98 | steps over the expected kind, otherwise stays |
| Parser.Parser.Check | src/parser.rs:115-121 | definition: false at EOF, otherwise whether the current token has the kind |
| Parser.Parser.IsAtEnd | src/parser.rs:130-132 | definition: the current token is EOF |
| Parser.Parser.Peek | src/parser.rs:134-136 | definition: the token at current |
| Parser.Parser.Previous | src/parser.rs:138-140 | definition: the token before current |
| Parser.Parser.Expression | src/parser.rs:10-12 | returns the tree and leaves the cursor as ExpressionAt says |
| Parser.Parser.Equality | src/parser.rs:14-25 | as TierAt for the equality tier says |
| Parser.Parser.Comparison | src/parser.rs:27-38 | as TierAt for the comparison tier says |
| Parser.Parser.Term | src/parser.rs:40-51 | as TierAt for the term tier says |
| Parser.Parser.Factor | src/parser.rs:53-64 | as TierAt for the factor tier says |
| Parser.Parser.Unary | src/parser.rs:66-73 | as UnaryAt says |
| Parser.Parser.Primary | src/parser.rs:75-103 | as PrimaryAt says |
| ParserFacts.TighterDisjoint | src/parser.rs:14-64 | a tier's operators are not operators of the tighter tiers |
| ParserFacts.TierRestRoot | src/parser.rs:16-23 | a tier's loop builds a tree rooted in its own or a tighter operator |
| ParserFacts.OperandRoot | src/parser.rs:14-64 | a tier's operand is rooted in a tighter operator only |
| ParserFacts.TierRoot | src/parser.rs:14-64 | a tier's tree is rooted in its own or a tighter operator |
| ParserFacts.UnaryNotBinary | src/parser.rs:66-73 | unary never yields a binary tree unparenthesised |
| ParserFacts.TierRestLeftAssociative | src/parser.rs:16-23 | the loop keeps same-tier operators left-leaning |
| ParserFacts.TierLeftAssociative | src/parser.rs:14-64 | no same-tier operator is ever the root of a right operand: each tier is left-associative |
| ParserFacts.NilFallback | src/parser.rs:100-101 | when no primary form matches the result is Literal(Nil) and the cursor does not move |
| ParserFacts.GroupingParses | src/parser.rs:95-99 | `(` e `)` yields Grouping(e) and steps over the `)` |
| ParserFacts.UnaryNests | src/parser.rs:66-73 | a prefix operator wraps the unary that follows it, so prefixes nest right to left |
| ParserFacts.NumberOperand | src/parser.rs:85-94 | a number token alone parses to its literal |
| ParserFacts.TierStep | src/parser.rs:16-23 | one loop turn wraps the accumulated tree as the left operand |
| ParserFacts.ProductFactor | src/parser.rs:53-64 | 3*6 parses as one factor |
| ParserFacts.QuotientFactor | src/parser.rs:53-64 | 7/2 parses as one factor |
| ParserFacts.PrecedenceExample | src/parser.rs:10-73 | 3*6 - 7/2 parses as (3*6) - (7/2) |
| ParserFacts.PrecedenceEvaluates | src/parser.rs:10-73 | the parse of 3*6 - 7/2 evaluates to 14.5 |
| Interpreter.ApplyBinary | src/interpreter.rs:55-80 | a binary operator has a value exactly for arithmetic on two numbers, `+` on two strings, comparison on two numbers and equality on two values of one kind; every other case is an error naming the operands and the operator |
| Interpreter.ResultKinds | src/interpreter.rs:57-75 | arithmetic on numbers gives a number, `+` on strings gives the concatenation, comparison and equality give a Bool |
| Interpreter.ApplyUnary | src/interpreter.rs:85-96 | unary has a value exactly for `-` on a number and `!` on a Bool or a number |
| Interpreter.InterpretLiteral | src/interpreter.rs:42-50 | each literal maps to the value of the matching kind: `true` and `false` to those Bools, a number and a string to the same number and text, nil to nil |
| Interpreter.InterpretExpression | src/interpreter.rs:33-40 | a literal always has a value; the other cases are defined by InterpretBinary, InterpretUnary and GroupingIsTransparent |
| Interpreter.InterpretBinary | src/interpreter.rs:52-81 | a value needs values of both operands; comparison and equality give a Bool |
| Interpreter.InterpretUnary | src/interpreter.rs:83-96 | an error of the operand is the result; a value of `!` is a Bool and a value of `-` is a number |
| Interpreter.ErrorsPropagateLeftFirst | src/interpreter.rs:52-54 | the left operand's error wins; the right operand's error is next |
| Interpreter.BinaryValueIff | src/interpreter.rs:52-80 | a binary expression has a value exactly when both operands do and the table defines the combination |
| Interpreter.EqualityIsValueEquality | src/interpreter.rs:68-76 | on values of one kind `==` is equality and `!=` its negation; on mixed kinds both are errors |
| Interpreter.StringConcatenation | src/interpreter.rs:60-61 | `+` on strings concatenates left then right; a string and a number do not add |
| Interpreter.GroupingIsTransparent | src/interpreter.rs:35 | a grouping evaluates to its inner value |
| Interpreter.DoubleNegation | src/interpreter.rs:83-96 | `-(-e)` is e for a number and `!!e` is e for a Bool |
| Interpreter.BangOnNumber | src/interpreter.rs:90-94 | `!` maps a number n to n == 0, and is the non-bool/numeric error on nil and on every string |
| Interpreter.SumExample | src/interpreter.rs:57-60 | 4 + 2 + 1 is 7 |
| Interpreter.PrecedenceExample | src/interpreter.rs:57-60 | (3*6) - (7/2) is 14.5 |
| Interpreter.NestedUnaryExample | src/interpreter.rs:83-88 | 6 * (-(-4)) is 24 |
| Interpreter.NilEquality | src/interpreter.rs:72-73 | nil == nil is true and nil != nil is false |
| Interpreter.MixedEqualityFails | src/interpreter.rs:76-79 | a string and a number are not comparable with `==` |
| Enviroment.AssignFirst | src/enviroment.rs:62-70 | assignment along the chain keeps the chain's length |
| Enviroment.FirstIndex | src/enviroment.rs:31-36 | the first environment of the chain binding the name binds it, and none before it does |
| Enviroment.InnermostFirst | src/enviroment.rs:31-36 | a binding is found exactly when some environment has the name, and it is the innermost one |
| Enviroment.Innermost | src/enviroment.rs:32-36 | definition: the value in the first map of the chain that has the name; InnermostFirst states its properties |
| Enviroment.Lookup | src/enviroment.rs:31-53 | definition: the innermost binding, else the global one, else none; LookupAfterAssign and PutShadows state its properties |
| Enviroment.AssignFirstChanges | src/enviroment.rs:62-70 | assignment rebinds only the innermost map holding the name; without one nothing changes |
| Enviroment.LookupAfterAssign | src/enviroment.rs:55-70 | after assignment the name looks up to the new value and every other name as before |
| Enviroment.PutShadows | src/enviroment.rs:27-33 | a name put into the innermost map shadows outer and global bindings |
| Enviroment.Enviroment.Chain | src/enviroment.rs:7-10 | the chain starts with this environment's own map |
| Enviroment.Enviroment.Create | src/enviroment.rs:12-20 | create_enviroment: an empty map enclosing exactly the argument |
| Enviroment.Enviroment.SetEnclosing | src/enviroment.rs:23-25 | takes the given environment as enclosing and keeps its own map |
| Enviroment.Enviroment.Put | src/enviroment.rs:27-29 | inserts or overwrites the name in this environment only |
| Enviroment.Enviroment.Get | src/enviroment.rs:31-53 | the innermost binding along the chain, else the global one, else an undefined-variable error |
| Enviroment.Enviroment.Assign | src/enviroment.rs:55-71 | a global binding is updated even when shadowed; otherwise the innermost binding along the chain, or a cannot-change error, and nothing else changes |
| Enviroment.Enviroment.AssignGlobal | src/enviroment.rs:73-84 | updates the innermost binding from this environment outward, or fails when none binds the name |
| VirtualMachine.Pushed | src/virtual_machine.rs:76-78 | push adds the value on top and keeps the rest |
| VirtualMachine.Popped | src/virtual_machine.rs:72-74 | pop removes the top and keeps the rest |
| VirtualMachine.PopAfterPush | src/virtual_machine.rs:72-78 | pop after push returns the value pushed and restores the stack |
| VirtualMachine.PushAfterPop | src/virtual_machine.rs:72-78 | pushing back what was popped restores the stack |
| VirtualMachine.Stack.Default | src/virtual_machine.rs:59-65 | the default stack is empty |
| VirtualMachine.Stack.Reset | src/virtual_machine.rs:68-70 | reset empties the stack |
| VirtualMachine.Stack.Pop | src/virtual_machine.rs:72-74 | pop needs a non-empty stack and returns and removes the top |
| VirtualMachine.Stack.Push | src/virtual_machine.rs:76-78 | push adds the value on top |
| VirtualMachine.NeverCompilerError | src/virtual_machine.rs:19-46 | run never yields InterpretCompilerError |
| VirtualMachine.Exec | src/virtual_machine.rs:23-45 | a finished run prints at most one value, after the earlier ones, and a run that printed ended with InterpretOk |
| VirtualMachine.ReturnStops | src/virtual_machine.rs:31-34 | Return pops and prints the top, yields InterpretOk and runs no further instruction |
| VirtualMachine.BadConstantStops | src/virtual_machine.rs:38-41 | an out-of-range Constant stops with InterpretRuntimeError and leaves the stack as it was |
| VirtualMachine.NonEmptyNeverPanics | src/virtual_machine.rs:31-42 | a run that starts with a value on the stack never pops an empty stack |
| VirtualMachine.PanicsIffLeadingReturn | src/virtual_machine.rs:31-42 | from an empty stack a run panics exactly when its first instruction is Return |
| VirtualMachine.ConstantsRunInOrder | src/virtual_machine.rs:23-45 | in-range Constants push their constants in order, and running off the end yields InterpretOk |
| VirtualMachine.ExecShift | src/virtual_machine.rs:23 | instructions run strictly in order: running from pc is running the code after pc |
| VirtualMachine.VirtualMachine.constructor | src/virtual_machine.rs:3-6 | a machine over the chunk, with an empty stack and nothing printed |
| VirtualMachine.VirtualMachine.Run | src/virtual_machine.rs:19-46 | the for loop ends with the result, stack and printed values that Exec gives |
| VirtualMachine.VirtualMachine.Interpret | src/virtual_machine.rs:15-17 | interpret is run, and never a compile error |

## Left out

- I/O. Printing is modelled as logs: `println!` in parse_error is the `reports` log of Report values, and the VM's `print!` on Return is the `printed` log.
  - The tree-walking `interpret`, `interpret_statement` and `interpret_statement_print` only print statement results and are not modelled.
  - Stack display and execution tracing are not modelled either.
  - The `println!("Literal error")` of src/parser.rs:92, for a NUMBER or STRING token without a literal, is dropped. The scanner never produces such a token, so the path cannot be reached from scanned input.
- Floating point. Number values are exact reals, so f64 rounding of arithmetic and of the parsed lexeme is not modelled, and neither are IEEE infinities and NaN.
  - Interpreter.InterpretExpression is evaluated only where no division has a zero divisor: the NoZeroDivisor precondition.
- Non-ASCII source text. The model scans a sequence of characters and treats only ASCII letters as letters. src/scanner.rs measures the text in bytes (`len()`, lines 322 and 330) but reads it by character index (`chars().nth`, lines 311 and 318) and slices it with character positions as byte offsets (lines 232, 256, 271 and 295). So on any non-ASCII character the source panics or mis-slices. For example, `é` starts an identifier through `is_alphabetic` and `peek` then unwraps None; in `"é"` the slice of line 271 falls inside a character. The model instead gives `é` the unexpected-character error token and `"é"` a STRING token, so non-ASCII input is outside the model.
- Compiler.Compiler.ScanToken: the compiler reads tokens from the sequence `ScanAll` of the source instead of calling the scanner lazily. These give the same tokens: `scan` does not scan, and each later `scan_token` call continues where the previous one stopped.
- Compiler messages: parse_error's formatted text is a Report of line, kind and message. The messages keep the source's wording, including "Excpect ')' after expression." and the truncated "Expect ';' after variable dec".
- Enviroment.RuntimeError: the runtime error is a datatype; its message text is not modelled. The `RuntimeError` that src/enviroment.rs imports is not defined in src/interpreter.rs.
- Interpreter errors are EvalError values rather than formatted strings.
- Parser.Parser.Consume: src/parser.rs:97 calls `self.consume(...)`, which src/parser.rs does not define; src/main.rs declares only `mod scanner`, so src/parser.rs is never compiled. It is modelled as stepping over the expected kind and otherwise not moving. It has no error channel.
- Parser.Parser.Advance: requires that the parser is not at EOF with nothing consumed, because `previous` would index before the first token.
- The parser methods take `self` by value in the source; the model keeps one cursor object.
- Scanner.Scanner.ScanTokens: requires `start <= current <= |input|`. The source slices the new input from the old position and panics outside that range.
- Ast: only the Binary, Grouping, Literal and Unary expressions are modelled. Call, Set, Get, Logical, Variable and Assign are not built by the parser or evaluated by the interpreter.
- VirtualMachine.VirtualMachine.Run: requires that the run does not pop an empty stack, which panics in the source.
  - Run also requires code made of Constant and Return only, the two opcodes `src/bytecode.rs` declares. The machine has no arm for the other opcodes the compiler emits.
- Integer widths: line numbers (u16 in a chunk) and pool indices (usize) are unbounded, so overflow is not modelled.
- Stale scanner tests:
  - src/scanner/tests.rs expects a keyword token for "this", but "this" is not in the keyword table, so the model gives IDENTIFIER (ScannerFacts.ThisIsIdentifier);
  - it expects no token for `^`, where the code yields an error token;
  - it expects `scan` to have scanned.
  - The model follows the code.
- Not modelled at all: src/main.rs (command line and files), src/debug.rs (disassembler output), src/lox_callable.rs, src/lox_instance.rs, src/lox_instane.rs (calls and classes that src/interpreter.rs does not define), src/util/generate_ast.rs, generateTest.py and the `.lox` fixture tests.
