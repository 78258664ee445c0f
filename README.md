# avalanche toolchain core, modelled in Dafny

This project models the core of the avalanche toolchain, a small
toolchain for an expression language that is written twice, in C and in
C++. The model covers these parts:

- **The front end.** The scanner turns a NUL-terminated source buffer
  into a vector of tokens. Its keyword trie classifies words, and lexeme
  copies go through a substring helper. A recursive-descent evaluator
  reads the token vector and computes the value of one expression with
  the value operators.
- **The back end.** A "lump" is a growable byte buffer of instructions
  with its own growable constant pool. A disassembler walks the lump's
  bytes and prints one row per instruction. A virtual machine runs the
  same bytes and prints the constants that the load instructions name.
- **Two hash maps.** Each has 256 buckets keyed by the NT hash of a key,
  with linear probing.

The modules follow the source files, with the following exceptions.
- **Large source files are split.** `scanner.c` is split into `Keywords` (the trie), `ScannerSpec` (the scan as functions), `Scanner` (the scanner's state and loops) and `ScannerFacts` (lemmas about the scan). `parser.c` is split into `Parser` and `ParserFacts`.
- **Shared logic gets its own module.** `Encoding`, `Listings`, `Execution` and `Buckets` hold what several files share. These are the instruction byte format, the disassembly walk, the run loop and the bucket probe.

- **Pure code becomes functions and lemmas.** This covers the value
  operators, the keyword trie and the grammar functions. The grammar
  functions thread a cursor index.
- **State-changing code becomes classes or methods.** A class has the
  source's fields and methods with `modifies` clauses:
  - the scanner's cursors;
  - the token vector and the two constant pools;
  - the two lumps;
  - the parser cursor;
  - the two virtual machines;
  - the two bucket arrays.

  Each such method is proved against a specification function:
  - `ScannerSpec.NextToken` and `ScanFrom` for the scanner;
  - `Encoding.Encode` and `Decode` for the lump and the walk over its
    bytes;
  - `Listings.Listing` for the disassemblers;
  - `Execution.Exec` for the virtual machines;
  - `Buckets.Lookup`, `HashmapC.AfterSet` and `AfterDel` for the hash
    maps.

  The properties the source promises are then proved about those
  functions as lemmas.

Printing is modelled as a returned value: rows for the disassemblers and
the sequence of printed constants for the virtual machines. A `double` is
a `real`.

Some behaviour is modelled as the code has it.

- **`3.5` is not one number.** `digit` leaves the `.` of `3.5` for a
  token of its own, so the input scans as `3`, `.` and `5`.
- **`}` scans as `)`.** `get_token` gives `}` the kind of a right
  parenthesis.
- **`%` never reaches the evaluator as an operator.** `get_token` gives
  `%` a kind that the `factor` rule does not test for.
- **`remove` in `hashmap.cpp` moves nothing back.** The macro that tests
  for a probed bucket ignores its argument and tests the bucket being
  removed. That bucket holds the key's hash, which begins with `$`, so
  the test never passes. `HashmapCpp.Hashmap.Remove` is therefore proved
  equal to the C map's delete.
- **No scanned number reaches the evaluator as a literal.** The scanner
  gives every number the kind NUMBER (`src/scanner/scanner.c:240`). The
  `primary` rule tests only for CONSTANT_INT and CONSTANT_FLOAT
  (`src/compiler/parser.c:157-160`), which the scanner never produces. So a
  scanned number reaches the default case, where "No expression found" is
  reported and the zero value is given (`ParserFacts.NoExpressionFound`).
  The `ParserFacts` lemmas about literals hold for token vectors that
  contain those two kinds.
- **The token kinds follow the C sources.** The shipped
  `src/scanner/token.h` lists a different set of token kinds from the one
  `scanner.c` and `parser.c` use. The model follows the C sources.

## Model

| member | source | states |
|---|---|---|
| Base.ToWord | src/lump.c:112-113 | A pool index passed as `uint16_t` keeps its low 16 bits: every index below 65536 passes through unchanged. |
| Opcodes.Width | src/vm/debug/disassembler.c:117-127 | An instruction occupies 1 to 3 bytes, and exactly 1 when its opcode takes no operand. |
| Values.Truncate | src/vm/value.c:80 | `(int)d` rounds toward zero: for `d >= 0` the result is the largest whole number not above `d`, and for `d <= 0` the smallest not below it. |
| Values.CRemainder | src/vm/value.c:80 | C's `%`: the remainder is smaller in magnitude than the divisor, and a non-zero remainder has the sign of the dividend. |
| Values.CDivision | src/vm/value.c:80 | C99's identity `(a / b) * b + a % b == a` holds for the truncating quotient and remainder. |
| Values.Negate | src/vm/value.c:30-35 | A number negated is a number whose payload sums with the operand's to zero. |
| Values.LogicalNot | src/vm/value.c:37-42 | `!` on a number stays a NUMBER (not a BOOL), is 0 or 1, and is 1 exactly when the operand is 0. |
| Values.Add | src/vm/value.c:44-50 | Adding two numbers gives a number. `AddCommutes`, `SubstractUndoesAdd` and `OrderingMeaning` pin it down as addition. |
| Values.Substract | src/vm/value.c:52-58 | Subtracting two numbers gives a number. `SubstractUndoesAdd` makes it the inverse of addition in both orders. |
| Values.Multiply | src/vm/value.c:60-66 | Multiplying two numbers gives a number; `DivideUndoesMultiply` relates it to division. |
| Values.Divide | src/vm/value.c:68-74 | For a non-zero divisor the quotient times the divisor is the dividend. |
| Values.Modulo | src/vm/value.c:76-82 | Both payloads are truncated to `int` first. The result is a whole number smaller in magnitude than the truncated divisor. The divisor must not truncate to 0, and the operands must stay inside `int`. |
| Values.Greater | src/vm/value.c:84-89 | Comparing two numbers gives a BOOL. `OrderingMeaning`, `OrderingTrichotomy` and `OrderingDuality` make it the ordering its name says. |
| Values.GreaterOrEqual | src/vm/value.c:91-96 | Comparing two numbers gives a BOOL. `OrderingMeaning`, `OrderingTrichotomy` and `OrderingDuality` make it the ordering its name says. |
| Values.Less | src/vm/value.c:98-103 | Comparing two numbers gives a BOOL. `OrderingMeaning`, `OrderingTrichotomy` and `OrderingDuality` make it the ordering its name says. |
| Values.LessOrEqual | src/vm/value.c:105-110 | Comparing two numbers gives a BOOL. `OrderingMeaning`, `OrderingTrichotomy` and `OrderingDuality` make it the ordering its name says. |
| Values.Equal | src/vm/value.c:112-124 | Defined for two numbers or two booleans. It gives a BOOL that is true exactly when the two values are equal. |
| Values.NotEqual | src/vm/value.c:126-138 | Defined for two numbers or two booleans. It gives a BOOL that is true exactly when the two values differ. |
| Values.NegateInvolutive | src/vm/value.c:30-35 | Negating twice gives the original value. |
| Values.LogicalNotTwice | src/vm/value.c:37-42 | `!!x` normalises a number to 0 or 1. |
| Values.SubstractUndoesAdd | src/vm/value.c:44-58 | `(a + b) - b == a` and `(a - b) + b == a`. |
| Values.AddCommutes | src/vm/value.c:44-50 | `a + b == b + a`, and adding 0 gives the operand back. |
| Values.OrderingMeaning | src/vm/value.c:44-103 | `a + b > a` exactly when `b` is positive, and `a + b < a` exactly when `b` is negative. |
| Values.OrderingTrichotomy | src/vm/value.c:84-124 | For two numbers, exactly one of `a > b`, `a < b` and `a == b` is true. |
| Values.DivideUndoesMultiply | src/vm/value.c:60-74 | `(a * b) / b == a` for a non-zero `b`. |
| Values.ModuloIdentity | src/vm/value.c:76-82 | `value_modulo` satisfies C's division identity on the truncated operands. |
| Values.OrderingDuality | src/vm/value.c:84-110 | `a > b` is `b < a` and `a >= b` is `b <= a`; `>=` negates `<` and `<=` negates `>`. |
| Values.NotEqualNegatesEqual | src/vm/value.c:112-138 | `value_not_equal` is the negation of `value_equal` on the same domain, and equality is symmetric. |
| Substring.FirstNul | src/scanner/substring.c:31 | Where `strncpy` stops copying: no NUL before it, and a NUL at it when it is inside the text. |
| Substring.Padded | src/scanner/substring.c:31 | `strncpy` keeps the length, copies each character before the first NUL and writes NUL from there on. |
| Substring.CopyOf | src/scanner/substring.c:29-33 | The copy has `end - start + 1` characters and ends with its terminator. |
| Substring.Text | src/scanner/substring.c:29-33 | What a C reader of the copy sees is a NUL-free prefix of the span. It stops early only at a NUL of the source. |
| Substring.Copy | src/scanner/substring.c:29-33 | `sbstrcpy` writes exactly the copy into `to[0 .. end - start]` and leaves the rest of `to` untouched. |
| Substring.SharedBuffer.constructor | src/scanner/substring.c:43 | The static buffer has 1024 characters. |
| Substring.SharedBuffer.FromSubstring | src/scanner/substring.c:35-47 | As written: it answers NULL exactly when the span is longer than 1024 characters. Otherwise it overwrites the front of the one shared buffer with the copy. A NULL answer changes nothing. |
| Substring.SharedBuffer.FromSubstringChecked | src/scanner/substring.c:35-47 | With the check corrected: it answers NULL exactly when the span and its terminator do not fit in 1024 characters. Otherwise the buffer starts with the copy. |
| Substring.LengthCheckOffByOne | src/scanner/substring.c:37 | A 1024-character span passes the length check although its copy needs 1025 characters. It is the only length that both passes the check and does not fit. |
| Substring.CopyOfPlainText | src/scanner/substring.c:29-33 | A span without NULs is copied as itself plus a terminator, and reads back as itself. |
| TokenVector.TokenVector.constructor | src/scanner/token_vector.c:31-44 | The vector starts empty with room for one block of 8 tokens. |
| TokenVector.TokenVector.Add | src/scanner/token_vector.c:46-52 | The vector's contents become the old contents plus the token, and the count grows by one. It grows by one block exactly when it was full, and the capacity stays a multiple of the block. |
| TokenVector.TokenVector.Grow | src/scanner/token_vector.c:54-60 | The capacity grows by one block, and every old slot keeps its token. |
| ConstantArrays.ConstantArray.constructor | src/constant.c:31-44 | The pool starts empty with room for one block of 8 constants. |
| ConstantArrays.ConstantArray.Add | src/constant.c:46-52 | The constant is stored at the old count, that index is answered, and the pool's contents become the old contents plus the constant. There is no search for an equal entry, and no earlier entry changes. It grows by one block exactly when it was full. |
| ConstantArrays.ConstantArray.Grow | src/constant.c:54-60 | The capacity grows by one block, and every old slot keeps its constant. |
| ConstantVectors.ConstantVector.constructor | src/vm/constant_vector.c:31-44 | The pool starts empty with room for one block of 8 constants. |
| ConstantVectors.ConstantVector.Add | src/vm/constant_vector.c:54-60 | The constant is stored at the old count and that index is answered. The contents become the old contents plus the constant, and no earlier entry changes. It grows by one block exactly when it was full. |
| ConstantVectors.ConstantVector.Grow | src/vm/constant_vector.c:62-68 | The capacity grows by one block, and every old slot keeps its constant. |
| Keywords.KeywordType | src/scanner/scanner.c:277-353 | The trie as written answers either IDENTIFIER or one of the keyword kinds. |
| Keywords.KeywordOf | src/scanner/scanner.c:277-353 | The keyword decision the trie is meant to make: a word is a keyword exactly when it is one of the spellings, and then it gets that spelling's kind. |
| Keywords.SpellingsRecognised | src/scanner/scanner.c:277-353 | Every keyword spelling gets its kind from the trie, whatever character follows it. `int` gets FUNC and `sbyte` gets BYTE. |
| Keywords.SpellingsListed | src/scanner/scanner.c:277-353 | The trie's spellings are exactly the 28 words listed. |
| Keywords.TrieSound | src/scanner/scanner.c:277-353 | A NUL-free word that the self-comparisons do not let through is the exact spelling of whatever keyword the trie answers. |
| Keywords.KeywordTypeIsLookup | src/scanner/scanner.c:277-353 | Away from the lexemes that the self-comparisons at 295 and 328 let through, the trie is the exact spelling lookup. |
| Keywords.ConstSpelledWrong | src/scanner/scanner.c:293-298 | `cabst` is classified as the keyword `const`, although it is not a spelling of any keyword. |
| ScannerSpec.StepReachable | src/scanner/scanner.c:199-206 | Moving one character past a character that is not NUL never leaves the buffer. |
| ScannerSpec.DigitRun | src/scanner/scanner.c:232 | The digit run ends at the first character that is not a digit, inside the buffer, and every character before that is a digit. |
| ScannerSpec.WordRun | src/scanner/scanner.c:253 | The word run ends at the first character that is not a letter or digit, and every character before that is one. |
| ScannerSpec.CommentEnd | src/scanner/scanner.c:122-126 | A comment ends at the first newline or NUL, without consuming it. |
| ScannerSpec.StringScan | src/scanner/scanner.c:213-227 | The string loop ends either just after a closing quote or on the terminator, and the line count never decreases. |
| ScannerSpec.StringStep | src/scanner/scanner.c:214-220 | One step of the string loop keeps those bounds. |
| ScannerSpec.StringToken | src/scanner/scanner.c:182-228 | A string literal gives a STRING or INVALID token from the opening quote to where the cursor stops. |
| ScannerSpec.NumberToken | src/scanner/scanner.c:230-249 | A number gives a NUMBER or INVALID token starting at its first digit, on the same line. |
| ScannerSpec.WordToken | src/scanner/scanner.c:251-261 | A word gives a token that is not END_OF_FILE, from its first letter to the end of the run. |
| ScannerSpec.NextToken | src/scanner/scanner.c:99-197 | The next token lies at or after the cursor and ends where the cursor stops, and lines never decrease. The token is END_OF_FILE exactly when it is empty, and then it sits on the terminator. |
| ScannerSpec.Lexeme | src/scanner/scanner.c:103-195 | A character that is not skipped starts a non-empty token at the cursor. |
| ScannerSpec.OperatorToken | src/scanner/scanner.c:103-170 | A punctuation character gives a valid token of one or two characters that starts at it. |
| ScannerSpec.ScanFrom | src/scanner/scanner.c:89-97 | The loop appends at least one token. |
| ScannerSpec.ScanFromStep | src/scanner/scanner.c:92-96 | The scan is the next token followed by the scan from where that token leaves the cursor, or just that token when it is END_OF_FILE. |
| Scanner.Scanner.constructor | src/scanner/scanner.c:43-46 | The cursors start at the first character on line 1, with the input valid. |
| Scanner.Scanner.Advance | src/scanner/scanner.c:199-206 | At NUL it answers NUL and does not move. Otherwise it answers the current character and moves exactly one character on. |
| Scanner.Scanner.GetToken | src/scanner/scanner.c:99-197 | The token, the cursor and the line are those `NextToken` gives. The input stays valid exactly when it was valid and the token is not a stray character. |
| Scanner.Scanner.SkipComment | src/scanner/scanner.c:122-126 | The cursor steps over `#` up to the next newline or NUL, and `start` follows it. |
| Scanner.Scanner.ReadLexeme | src/scanner/scanner.c:103-195 | It produces the token `Lexeme` gives. Only a stray character clears the valid flag. |
| Scanner.Scanner.Operator | src/scanner/scanner.c:103-170 | A punctuation or newline token is the one `OperatorToken` gives. |
| Scanner.Scanner.StringLiteral | src/scanner/scanner.c:208-228 | The string literal is the one `StringToken` gives. |
| Scanner.Scanner.Digit | src/scanner/scanner.c:230-249 | The number token is the one `NumberToken` gives. |
| Scanner.Scanner.Identifier | src/scanner/scanner.c:251-261 | The word token is the one `WordToken` gives. |
| Scanner.Scanner.ClassifyWord | src/scanner/scanner.c:253-259 | The kind of a word is the trie's answer on the copied lexeme, given the character that follows it. |
| Scanner.Scanner.ScanOne | src/scanner/scanner.c:92-96 | One pass appends the token `NextToken` gives to the vector. |
| Scanner.Scanner.ScanTokens | src/scanner/scanner.c:89-97 | The vector gains exactly the tokens of `ScanFrom` from the cursor, and the valid flag ends as `ScanFrom` says. |
| Scanner.ScanInit | src/scanner/scanner.c:58-80 | It fails exactly when the scan is not valid; otherwise it answers a fresh vector holding the whole scan. |
| ScannerFacts.ScanEndsWithEof | src/scanner/scanner.c:89-116 | The scan ends with exactly one END_OF_FILE token, which is empty and sits on the first NUL. |
| ScannerFacts.ScanOrdered | src/scanner/scanner.c:89-97 | Tokens lie inside the buffer and follow one another without overlap, and their lines never decrease. |
| ScannerFacts.ScanValidity | src/scanner/scanner.c:66-195 | The input is valid exactly when no token is a stray character. Unterminated strings and bad numbers do not clear the flag. |
| ScannerFacts.SkippedText | src/scanner/scanner.c:122-179 | Blanks and comments give no token of their own. A comment stops before its newline, which becomes the next token. |
| ScannerFacts.LayoutTokens | src/scanner/scanner.c:106-120 | A tab is a TAB token and `}` is a RIGHT_PAREN token. A newline is a NEWLINE token that carries the incremented line. |
| ScannerFacts.TwoCharacterOperators | src/scanner/scanner.c:129-170 | `-`, `:`, `!`, `=`, `>` and `<` take the second character exactly when it completes `->`, `::`, `!=`, `==`, `>=` or `<=`. |
| ScannerFacts.NumberLexeme | src/scanner/scanner.c:230-249 | A number is its run of digits. A `.` after it is never consumed, and the token is INVALID exactly when that `.` is not followed by a digit. |
| ScannerFacts.FractionSplits | src/scanner/scanner.c:234-241 | `3.5` scans as the number `3`, a dot and the number `5`. |
| ScannerFacts.TrailingPeriod | src/scanner/scanner.c:236-248 | `3.` scans as an INVALID token over the digit, then a dot. |
| ScannerFacts.PlainString | src/scanner/scanner.c:208-228 | A literal without backslashes runs to the next quote inclusive and counts one line per newline inside it. |
| ScannerFacts.EscapedQuote | src/scanner/scanner.c:215 | A backslash makes the loop step over the following quote. |
| ScannerFacts.EscapedNewline | src/scanner/scanner.c:214-215 | An escaped newline is not counted as a line. |
| ScannerFacts.UnterminatedString | src/scanner/scanner.c:217-223 | A literal that reaches the terminator is an INVALID token ending there. |
| ScannerFacts.WordLexeme | src/scanner/scanner.c:41-261 | A word is the longest run of letters and digits, and every exact spelling gets its keyword kind. Away from the self-compare lexemes, its kind is the exact lookup. |
| ScannerFacts.IntIsFunc | src/scanner/scanner.c:317 | `int` scans as the FUNC keyword followed by END_OF_FILE. |
| Parser.Step | src/compiler/parser.c:56-61 | `advance` moves one token on, except on END_OF_FILE, where it stays. The cursor never passes END_OF_FILE. |
| Parser.Apply | src/compiler/parser.c:72-132 | `+`, `-`, `*` and the orderings apply exactly when both operands are numbers, and `==` and `!=` exactly when the operands are comparable. `/` applies exactly when `Values.DivideDefined` holds (numbers and a non-zero divisor), and `%` exactly when `Values.ModuloDefined` holds. Otherwise evaluation aborts. |
| Parser.Expression | src/compiler/parser.c:63-66 | Evaluation moves the cursor forward and stays inside the vector. It consumes something unless it starts on END_OF_FILE. |
| Parser.Equality | src/compiler/parser.c:68-82 | The same cursor bounds for `equality`. |
| Parser.Comparison | src/compiler/parser.c:84-103 | The same cursor bounds for `comparison`. |
| Parser.Term | src/compiler/parser.c:105-119 | The same cursor bounds for `term`. |
| Parser.Factor | src/compiler/parser.c:121-137 | The same cursor bounds for `factor`. |
| Parser.Unary | src/compiler/parser.c:139-151 | The same cursor bounds for `unary`. |
| Parser.Primary | src/compiler/parser.c:153-176 | `primary` always consumes at least one token unless it is on END_OF_FILE. |
| Parser.TokenIs | src/compiler/parser.c:178-185 | The sentinel-terminated search answers true exactly when the token's kind is in the list. |
| Parser.Parser.constructor | src/compiler/parser.c:34-51 | The cursor starts on the first token with the panic flag cleared. |
| Parser.Parser.Advance | src/compiler/parser.c:56-61 | It answers the current token and moves the cursor as `Step` says. |
| Parser.Parser.Parse | src/compiler/parser.c:48-54 | It answers the value of the expression at the head of the vector and leaves the cursor after it. The panic flag is raised exactly when something was reported. |
| ParserFacts.LiteralUnary | src/compiler/parser.c:139-161 | At any position, a literal is one operand: `unary` consumes exactly its token and answers its number. |
| ParserFacts.LiteralLevels | src/compiler/parser.c:63-161 | At any position, a literal passes unchanged through every level whose operators do not follow it, and stops right after itself. |
| ParserFacts.FactorTakesOneOperator | src/compiler/parser.c:121-137 | At any position, `factor` applies one `*`, `/` or `%` to two literals and stops after the second, whatever follows. |
| ParserFacts.TermTakesOneOperator | src/compiler/parser.c:105-119 | At any position, `term` applies one `+` or `-` to two literals and stops after the second, so in `a - b - c` the second `-` is left unconsumed. |
| ParserFacts.ComparisonTakesOneOperator | src/compiler/parser.c:84-103 | At any position, `comparison` applies one ordering to two literals and stops after the second: `a < b < c` compares only `a` and `b`. |
| ParserFacts.EqualityTakesOneOperator | src/compiler/parser.c:63-82 | At any position, `expression` applies one `==` or `!=` to two literals and stops after the second: `a == b == c` compares only `a` and `b`. |
| ParserFacts.Precedence | src/compiler/parser.c:105-137 | At any position, `a + b * c` (any `+`/`-` and `*`/`/`/`%`) evaluates as `a + (b * c)`. The term ends after `c`, whatever follows. |
| ParserFacts.NegationRun | src/compiler/parser.c:139-151 | A run of `k` prefix `-` before a literal evaluates to the literal when `k` is even and to its negation when `k` is odd, consuming the run and the literal. |
| ParserFacts.MissingRightParen | src/compiler/parser.c:162-171 | After `(` and a literal at any position, `primary` consumes the next token whatever it is. It reports the missing `)` at the line of the token it then rests on, and still answers the inner value. |
| ParserFacts.NothingToParse | src/compiler/parser.c:153-175 | On END_OF_FILE the evaluator reports "No expression found", answers the zero value and does not move. |
| ParserFacts.NoExpressionFound | src/compiler/parser.c:153-175 | Any token that cannot start an operand is reported and yields the zero value. |
| ParserFacts.ParenthesisedEquality | src/compiler/parser.c:121-171 | `(a == b)` in operand position at any position gives a BOOL, and `factor` stops after the `)`. |
| ParserFacts.BooleanOperandAborts | src/compiler/parser.c:105-119 | `(a == b)` followed by `+` or `-` at any position fails the operand check whatever the right operand is, so evaluation aborts. |
| Encoding.InstrBytes | src/lump.c:66-82 | A bare opcode is one byte. A pool index below 256 is `[CONSTANT, index]`. Any other index is `[CONSTANT_LONG, hi, lo]`, whose big-endian word is the index truncated to 16 bits. |
| Encoding.EncodeAppend | src/lump.c:92-122 | Appending an instruction appends its bytes after the stream. |
| Encoding.EncodeCons | src/lump.c:92-122 | The stream of a sequence is the first instruction's bytes followed by the stream of the rest. |
| Encoding.DecodeAt | src/vm/debug/disassembler.c:143-163 | The walk reads the opcode at the offset and, for a load, the index its operand bytes spell. It has an index exactly when the operand bytes lie inside the stream. |
| Encoding.Decode | src/vm/debug/disassembler.c:35-127 | The walk starts at the given offset. |
| Encoding.StepOver | src/vm/debug/disassembler.c:117-127 | Decoding an appended instruction reads it back and moves past exactly its bytes. |
| Encoding.DecodeAppended | src/vm/debug/disassembler.c:35-127 | The walk over appended instructions is the expected walk: one step per instruction. |
| Encoding.RoundTrip | src/lump.c:66-122 | Decoding the stream of appended instructions gives back exactly those instructions, in order. |
| Encoding.WalkOffsets | src/vm/debug/disassembler.c:35-127 | Step `k` of the walk is at the offset where instruction `k` was written. |
| Listings.OperandOf | src/vm/debug/disassembler.c:143-163 | A bare opcode has no operand. A load shows the index its operand bytes spell, and the constant there exactly when the index is inside the pool. |
| Listings.LabelOf | src/vm/debug/disassembler.c:38-43 | The line column shows `\|` exactly when the line has not changed since it was last shown; otherwise it shows the current line. |
| Listings.LineAfter | src/vm/debug/disassembler.c:133-136 | Only a LINE_INC row increments the line, by one. |
| Listings.RowsFrom | src/vm/debug/disassembler.c:32-47 | There is one row per step of the walk. |
| Listings.RowsFollowWalk | src/vm/debug/disassembler.c:32-47 | Row `k` has step `k`'s offset, opcode name and operand. |
| Listings.LabelsFrom | src/vm/debug/disassembler.c:38-45 | Every row after the first shows the column that the steps above it decide. |
| Listings.LineColumn | src/vm/debug/disassembler.c:34-136 | The first row shows line 0. A later row shows the number of LINE_INC rows above it exactly when the row above is a LINE_INC, and `\|` otherwise. |
| Listings.ListsAppends | src/vm/debug/disassembler.c:32-47 | The listing of a lump built by appends has one row per append, at its offset. Each load row shows the appended index and the constant stored there. |
| Listings.RawCountSeesOperands | src/vm/debug/disassembler.c:53-57 | The raw LINE_INC count of `disassemble_instruction` counts an operand byte equal to LINE_INC that the walk never visits as an opcode. |
| DisassemblerC.Mnemonic | src/vm/debug/disassembler.c:62-140 | Every opcode except END_PROGRAM gets its own name; any other byte gets "Instruction not found...". |
| DisassemblerC.MnemonicsDistinct | src/vm/debug/disassembler.c:62-140 | Two different opcodes never share a name. |
| DisassemblerC.ConstantAt | src/vm/debug/disassembler.c:150 | The pool entry at an index, or nothing past the pool's count. |
| DisassemblerC.PrintOpConstant | src/vm/debug/disassembler.c:143-151 | The short load's row operand is the one `OperandOf` gives. |
| DisassemblerC.PrintOpConstantLong | src/vm/debug/disassembler.c:153-163 | The long load's row operand is the one `OperandOf` gives, with the index `byte1 << 8 \| byte2`. |
| DisassemblerC.PrintCode | src/vm/debug/disassembler.c:62-140 | The row's name and operand, the offset left on the last operand byte, and the line after the row. |
| DisassemblerC.Disassemble | src/vm/debug/disassembler.c:32-47 | The rows printed are exactly the listing of the lump's written bytes. |
| DisassemblerC.Instruction | src/vm/debug/disassembler.c:49-60 | It prints the row at an offset, with the line taken as the raw count of earlier bytes equal to LINE_INC. |
| DisassemblerCpp.Mnemonic | src/debug/disassembler.cpp:62-88 | Only RETURN, LINE_INC and the two loads are named; every other byte gets "Instruction not found...". |
| DisassemblerCpp.MnemonicsDistinct | src/debug/disassembler.cpp:62-88 | The four named opcodes have distinct names. |
| DisassemblerCpp.ConstantAt | src/debug/disassembler.cpp:98 | The pool entry at an index, or nothing past the pool's count. |
| DisassemblerCpp.PrintOpConstant | src/debug/disassembler.cpp:91-99 | The short load's row operand is the one `OperandOf` gives. |
| DisassemblerCpp.PrintOpConstantLong | src/debug/disassembler.cpp:101-111 | The long load's row operand is the one `OperandOf` gives. |
| DisassemblerCpp.PrintCode | src/debug/disassembler.cpp:62-89 | The row's name and operand, the offset left on the last operand byte, and the line after the row. |
| DisassemblerCpp.DisassembleLump | src/debug/disassembler.cpp:32-47 | The rows printed are exactly the listing of the lump's written bytes. |
| DisassemblerCpp.Instruction | src/debug/disassembler.cpp:49-60 | It prints the row at an offset, with the raw LINE_INC count as its line. |
| LumpC.Lump.constructor | src/lump.c:48-51 | The lump starts with no bytes, room for 8, and an empty pool. |
| LumpC.Lump.Grow | src/lump.c:84-90 | The capacity grows by 8, and the old bytes are kept. |
| LumpC.Lump.AddNiladic | src/lump.c:92-99 | One byte is appended after the written ones, growing by 8 exactly when full. |
| LumpC.Lump.AddMonadic | src/lump.c:101-110 | The opcode and operand byte are appended, growing when the two would not fit. |
| LumpC.Lump.AddDyladic | src/lump.c:112-122 | The opcode and the word, high byte first, are appended, growing when the three would not fit. |
| LumpC.Lump.AddCode | src/lump.c:66-70 | One byte is appended and its offset `count - 1` is answered. |
| LumpC.Lump.AddLoad | src/lump.c:76-79 | The short or long load form is appended, depending on whether the index is below 256. |
| LumpC.Lump.AddConstant | src/lump.c:72-82 | The constant goes into the pool, and its pool index (not a code offset) is answered. The load of that index is appended as 2 or 3 bytes. |
| LumpCpp.Lump.constructor | src/lump.cpp:45-48 | The lump starts with no bytes, room for 8, and an empty pool. |
| LumpCpp.Lump.Grow | src/lump.cpp:81-87 | The capacity grows by 8, and the old bytes are kept. |
| LumpCpp.Lump.AddNiladic | src/lump.cpp:89-96 | One byte is appended after the written ones, growing by 8 exactly when full. |
| LumpCpp.Lump.AddMonadic | src/lump.cpp:98-106 | The opcode and operand byte are appended, growing when the two would not fit. |
| LumpCpp.Lump.AddDyladic | src/lump.cpp:108-117 | The opcode and the word, high byte first, are appended. |
| LumpCpp.Lump.AddCode | src/lump.cpp:63-67 | One byte is appended and its offset is answered. |
| LumpCpp.Lump.AddLoad | src/lump.cpp:73-76 | The short or long load form is appended, depending on whether the index is below 256. |
| LumpCpp.Lump.AddConstant | src/lump.cpp:69-79 | The pool index is answered and its load is appended. |
| Execution.Exec | src/vm/vm.c:50-74 | A halting run stops one byte past a RETURN inside the stream. |
| Execution.ExecLoads | src/vm/vm.c:62-70 | A halting run past a load prints `pool[index]` first, where the index is the next byte or `byte1 << 8 \| byte2`, and then what the rest of the run prints. |
| Execution.EmitsLoadFirst | src/vm/vm.c:62-64 | A load at the front prints its constant before everything else. |
| Execution.RunsAppends | src/vm/vm.c:54-74 | A run over a lump built by appends prints exactly the constants of the loads appended before the first RETURN. It halts exactly when a RETURN was appended and those loads name pool entries. |
| Execution.NothingAfterReturn | src/vm/vm.c:60-61 | Whatever is appended after a RETURN is never run. |
| VmC.Vm.constructor | src/vm/vm.c:29 | The static machine has no lump and `pc` at 0. |
| VmC.Vm.ReadByte | src/vm/vm.c:52 | It reads the byte at `pc` and moves past it. |
| VmC.Vm.Run | src/vm/vm.c:50-74 | It answers INTERPRET_OK, never a runtime error. What it prints and where `pc` stops are the halting run of `Exec`. |
| VmC.Vm.Interpret | src/vm/vm.c:33-48 | A failed compile answers COMPILE_ERROR without running. Otherwise the machine runs the lump from its first byte, and on an appended lump it prints what `Emits` says. |
| VmCpp.Vm.constructor | src/vm.cpp:29 | The static machine has no lump and `pc` at 0. |
| VmCpp.Vm.ReadByte | src/vm.cpp:41 | It reads the byte at `pc` and moves past it. |
| VmCpp.Vm.Run | src/vm.cpp:39-66 | It answers OK. What it prints and where `pc` stops are the halting run of `Exec`. |
| VmCpp.Vm.Interpret | src/vm.cpp:32-37 | The machine takes the lump, starts at its first byte and runs it, printing what `Emits` says. |
| VmCpp.DriverPrintsFirstFive | src/main.cpp:30-43 | The driver's five loads, then a RETURN, then more appends print exactly the first five constants. |
| Buckets.Home | src/hashmap.c:79-96 | A hash's home bucket is one of the 256. |
| Buckets.HomeIsEighthCharacter | src/hashmap.c:88-95 | The big-endian fold of the four characters fits an `int`, and only the last of them decides the home bucket. |
| Buckets.Hash2Int | src/hashmap.c:79-96 | `hash2int` answers the home bucket, which is the eighth character's code. |
| Buckets.StopFrom | src/hashmap.c:53-58 | Where a probe stops is one of the 256 distances, at an empty bucket or at one holding the hash. |
| Buckets.LookupFindsStored | src/hashmap.c:53-57 | A bucket holding the hash, written where the probe stops, is found with its value. |
| HashmapC.Empty | src/hashmap.c:15-23 | Every bucket is empty. |
| HashmapC.AfterSet | src/hashmap.c:25-46 | `set` answers OK or FULL, never NOT_FOUND. |
| HashmapC.AfterDel | src/hashmap.c:63-77 | `del` keeps the 256 buckets. |
| HashmapC.SetChangesOneBucket | src/hashmap.c:30-45 | A FULL set changes nothing. An OK set writes the hash and value into exactly one bucket, which was empty or already held the hash. |
| HashmapC.ProbeCovers | src/hashmap.c:30-31 | The 256 probe distances reach every bucket. |
| HashmapC.FullExactlyWithoutRoom | src/hashmap.c:30-45 | `set` answers FULL exactly when every bucket holds some other hash. |
| HashmapC.GetAfterSet | src/hashmap.c:30-57 | After a successful set, get answers the value just set. |
| HashmapC.SetKeepsOtherKeys | src/hashmap.c:30-57 | Setting one key does not change what get answers for any other key it finds. |
| HashmapC.GetAfterDel | src/hashmap.c:63-77 | After a delete, get of that key answers nothing. |
| HashmapC.DelCanHideLaterKey | src/hashmap.c:68-76 | Delete does no back-shift. With two keys sharing a home bucket, deleting the first makes the second unreachable. |
| HashmapC.Hashmap.constructor | src/hashmap.c:15-23 | The bucket array is the empty map. |
| HashmapC.Hashmap.Set | src/hashmap.c:25-46 | The status and the new buckets are those `AfterSet` gives. |
| HashmapC.Hashmap.Get | src/hashmap.c:48-61 | It answers `Lookup`, with NAN as nothing. |
| HashmapC.Hashmap.Del | src/hashmap.c:63-77 | The new buckets are those `AfterDel` gives. |
| HashmapCpp.Marked | src/hashmap.cpp:63-66 | The stored text is the hash at distance 0; at any other distance its first character is `p`. |
| HashmapCpp.AfterSet | src/hashmap.cpp:49-73 | `set` answers OK or FULL. |
| HashmapCpp.SetAsInC | src/hashmap.cpp:49-73 | The status, the values and which buckets are set are those of the C map's set. |
| HashmapCpp.GetAfterSetAtHome | src/hashmap.cpp:49-88 | A key whose probe stops at its home bucket is found after it is set. |
| HashmapCpp.MarkedBucketNeverMatches | src/hashmap.cpp:63-84 | A bucket filled away from its home is marked probed and never holds the key's hash. |
| HashmapCpp.ProbedKeyIsLost | src/hashmap.cpp:63-88 | With two keys sharing a home bucket, the second set answers OK, yet get of that key then answers nothing. |
| HashmapCpp.Hashmap.constructor | src/hashmap.cpp:39-47 | The bucket array is the empty map. |
| HashmapCpp.Hashmap.Set | src/hashmap.cpp:49-73 | The status and the new buckets are those of `HashmapCpp.AfterSet`, including the `p` mark. |
| HashmapCpp.Hashmap.Get | src/hashmap.cpp:75-88 | It answers `Lookup`, with NAN as nothing. |
| HashmapCpp.Hashmap.Remove | src/hashmap.cpp:90-116 | It has the same effect as the C map's delete, because the probed-bucket test never passes. |

## Left out

- **Reading the source file** (`src/scanner/source.c`) is left out: the scanner is handed the buffer as a NUL-terminated `seq<char>`.
- **Diagnostics are not modelled as text.** The messages written to stderr by the scanner and by `report` are left out. The parser records which message was reported and on which line, and raises the panic flag.
- **`printf` formats** (`%04d`, `%g`, `%f`) are left out: rows and printed constants are values.
- **Floating point is left out.** Payloads and constants are `real`, so rounding, infinities and NaN are not modelled. Values.Divide requires a non-zero divisor for that reason.
- **Literal text is not converted.** The `atoi`/`atof` conversion of a literal's text is the parameter `lit` of the grammar functions.
- **`compile` is not part of this model.** `VmC.Vm.Interpret` takes its verdict and the filled lump as parameters.
- **The drivers and debug-only helpers are left out.** The drivers `src/main.c` and `src/main.cpp` are not modelled; only the scenario of `src/main.cpp` is stated, as `VmCpp.DriverPrintsFirstFive`. The older `src/debug/disassembler.c` depends on lump accessors that are not defined, and `src/compiler/type.c` does not compile as written.
- **The operand stack is left out.** It is declared in `src/vm/vm.h` but never used.
- **Freeing memory is left out:** `lump_free`, `lump::free`, `token_vector_del`, `constant_array_del`, `constant_vector_free` and `scan_del`. Allocation failures are left out too: the `ASSERT` after `malloc`/`realloc` is taken to succeed.
- **`crypt` is not part of this model:** the hash-map operations take the key's hash. Its properties are taken as given: 36 characters, the `$3$$` signature, and ASCII characters at positions 4 to 7.
- **The hash buffer overflow is left out.** Copying a 36-character hash into `char hash[36]` writes its terminator past the field. The model stores the whole hash as a sequence and compares it whole.
- **The C++ opcode numbering is taken from C.** The C++ lump, disassembler and virtual machine switch on `op_code::` values. These are defined in `opcode.hpp`, which is not part of this model. The model gives them the numbering of `src/vm/opcode.h` (`Opcodes`). `DisassemblerCpp.Mnemonic`'s "not found exactly above CONSTANT_LONG" depends on that numbering.
- **The constant pools are stand-ins.**
  - The C++ lump's pool is `constant_vector::` from `src/constant.hpp`, whose implementation is not part of this model. `LumpCpp.Lump` uses the C pool of `src/vm/constant_vector.c` (`ConstantVectors.ConstantVector`), which is declared with the same fields, block size and operations.
  - `src/vm/vm.c` and `src/vm/debug/disassembler.c` use the `struct lump` of `src/vm/lump.h`, whose pool is a `constant_vector`. The model runs them over `LumpC.Lump`, which is `src/lump.c` with a `constant_array` pool.
  - The two pools behave identically: each appends at the old count, answers that index and grows by 8 when full.
- **The C++ map's size is taken as 256.** It comes from `hashmap.hpp` (`hashmap::MAX_SIZE`), which is not part of this model. `src/lump.hpp` and `src/constant.hpp` supply the C++ block size of 8. The C block sizes (`TOKEN_VECTOR_BUFFER_COUNT`, `CONSTANT_ARRAY_BUFFER_COUNT`, `CONSTANT_VECTOR_BUFFER_COUNT`) come from headers that are not part of this model; they are taken as 8, like the lump's.
- Keywords.KeywordType: answers IDENTIFIER in one case where the C code reads past the copied lexeme. This happens when a self-comparison passes for a lexeme shorter than the index read next (`str[3]`, `str[5]`), which the code leaves undefined.
- Substring.SharedBuffer.FromSubstring: excludes a span of exactly 1024 characters, whose terminator the source writes one past the buffer (see Findings).
- Values.Modulo: excludes operands whose truncation falls outside `int`, a divisor that truncates to 0, and `INT_MIN % -1`, all undefined in C.
- VmC.Vm.Run: requires that the run halts without reading past the written bytes or the pool's count. The source has no such checks, so a stream without a reachable RETURN runs off the end.
- VmCpp.Vm.Run: requires the same.
- Parser.Apply: a zero divisor for `/` aborts evaluation here, where the C evaluator computes an infinity or NaN and goes on, because `real` has no such values. A `%` outside the `int` range, or with a divisor that truncates to 0, aborts too; C leaves those undefined.
- DisassemblerC.PrintOpConstant: a load whose operand byte lies at or past the written count gives a `Truncated` row. The source reads `array[offset + 1]` anyway (src/vm/debug/disassembler.c:145), which is a stale byte within the capacity or memory past the allocation.
- DisassemblerC.PrintOpConstantLong: the same for the two operand bytes (src/vm/debug/disassembler.c:155-156).
- DisassemblerCpp.PrintOpConstant: the same (src/debug/disassembler.cpp:93).
- DisassemblerCpp.PrintOpConstantLong: the same (src/debug/disassembler.cpp:103-105).
- DisassemblerCpp.DisassembleLump: lists such a load as a `Truncated` row, as DisassemblerC.Disassemble does.
- DisassemblerC.Disassemble: lists a load whose operand bytes lie past the written count as a `Truncated` row. A load whose index is at or past the pool's count shows no constant. The source reads an unused or out-of-bounds slot there.
- **The scanner's lexemes are spans of the buffer.** They are `start`/`end` offsets rather than pointers, and the static globals `start`, `current`, `line` and `valid_input` are fields of `Scanner.Scanner`.

## Findings

| source | as written | input that shows it | evidently intended | confidence | as-written member | corrected member |
|---|---|---|---|---|---|---|
| src/hashmap.cpp:63-66 | `set` writes `p` over the first character of the stored hash when the bucket was reached at a probe distance other than 0. `get` compares whole hashes, which begin with `$`, so it never finds that key. | Two NT hashes with the same eighth character (the same home bucket): set the first, set the second (OK), then get the second, which answers NAN. | A key that `set` stores is found by `get`, as in the C map. | high (not executed) | HashmapCpp.ProbedKeyIsLost | HashmapC.GetAfterSet |
| src/scanner/substring.c:37 | The check lets through a span of up to 1024 characters plus a terminator. The copy then writes 1025 characters into the 1024-character static buffer. | A lexeme of exactly 1024 characters: the terminator lands at index 1024. | NULL for every span that does not fit with its terminator (`end - start >= 1024`). | high (not executed) | Substring.LengthCheckOffByOne | Substring.SharedBuffer.FromSubstringChecked |
| src/scanner/scanner.c:295 | The `c` branch compares letters 1 and 2 of the source lexeme with the same letters of its own copy, which always agree. Line 328 does the same in the `pr` branch. | The lexeme `cabst` is classified as the keyword `const`; `prabc` would likewise be `print`. | Compare with the literal letters `on` (and `int`), so that only exact spellings are keywords. | high (not executed) | Keywords.ConstSpelledWrong | Keywords.KeywordOf |
