/** What the scanner computes, stated as functions of the source buffer
    and a cursor position: the lexeme classes, the next token, and the
    whole token sequence with the validity flag. The cursor machine in
    scanner.dfy is proved to compute exactly these. */
module ScannerSpec {
  import opened Base
  import opened Tokens
  import opened Keywords

  const FormFeed: char := '\U{0C}'
  const VerticalTab: char := '\U{0B}'

  predicate IsDigit(c: char)
  {
    '0' <= c <= '9'
  }

  /** Every character from 'A' to 'z' counts as a letter, so `[`, `\`,
      `]`, `^`, `_` and the backquote do as well. */
  predicate IsAlpha(c: char)
  {
    ('A' <= c <= 'z') || c == '_'
  }

  predicate IsWordChar(c: char)
  {
    IsAlpha(c) || IsDigit(c)
  }

  /** Characters skipped without a token. */
  predicate IsBlank(c: char)
  {
    c == ' ' || c == FormFeed || c == VerticalTab || c == '\r'
  }

  /** The single-character tokens. */
  function SingleKind(c: char): Option<TokenType>
  {
    match c
    case '(' => Some(LeftParen)
    case ')' => Some(RightParen)
    case '{' => Some(LeftBrace)
    case '}' => Some(RightParen)
    case '[' => Some(LeftSquare)
    case ']' => Some(RightSquare)
    case ',' => Some(Comma)
    case '.' => Some(Dot)
    case '+' => Some(Plus)
    case '*' => Some(Star)
    case '%' => Some(Modulo)
    case '/' => Some(Slash)
    case '\t' => Some(Tab)
    case _ => None
  }

  /** The one-or-two-character tokens: the second character that makes
      the longer token, the short kind and the long kind. */
  function PairKinds(c: char): Option<(char, TokenType, TokenType)>
  {
    match c
    case '-' => Some(('>', Minus, Arrow))
    case ':' => Some((':', Colon, ColonColon))
    case '!' => Some(('=', Bang, BangEqual))
    case '=' => Some(('=', Equal, EqualEqual))
    case '>' => Some(('=', Greater, GreaterEqual))
    case '<' => Some(('=', Less, LessEqual))
    case _ => None
  }

  /** Characters no branch of the scanner accepts. */
  predicate IsStray(c: char)
  {
    c != '\0' && c != '\n' && c != '#' && c != '"' &&
    SingleKind(c).None? && PairKinds(c).None? &&
    !IsBlank(c) && !IsDigit(c) && !IsAlpha(c)
  }

  /** A source buffer ends with its NUL terminator. */
  predicate Terminated(s: seq<char>)
  {
    |s| > 0 && s[|s| - 1] == '\0'
  }

  /** A position the cursor can reach: it never moves past a NUL. */
  predicate Reachable(s: seq<char>, i: nat)
  {
    Terminated(s) && i < |s| && forall k :: 0 <= k < i ==> s[k] != '\0'
  }

  lemma StepReachable(s: seq<char>, i: nat)
    requires Reachable(s, i) && s[i] != '\0'
    ensures Reachable(s, i + 1)
  {
  }

  /** End of the run of digits starting at `i`. */
  function DigitRun(s: seq<char>, i: nat): (j: nat)
    requires Reachable(s, i)
    ensures i <= j && Reachable(s, j) && !IsDigit(s[j])
    ensures forall k :: i <= k < j ==> IsDigit(s[k])
    decreases |s| - i
  {
    if IsDigit(s[i]) then StepReachable(s, i); DigitRun(s, i + 1) else i
  }

  /** End of the run of letters and digits starting at `i`. */
  function WordRun(s: seq<char>, i: nat): (j: nat)
    requires Reachable(s, i)
    ensures i <= j && Reachable(s, j) && !IsWordChar(s[j])
    ensures forall k :: i <= k < j ==> IsWordChar(s[k])
    decreases |s| - i
  {
    if IsWordChar(s[i]) then StepReachable(s, i); WordRun(s, i + 1) else i
  }

  /** Where a comment starting before `i` stops: at the next newline or
      at the terminator, neither of which it consumes. */
  function CommentEnd(s: seq<char>, i: nat): (j: nat)
    requires Reachable(s, i)
    ensures i <= j && Reachable(s, j) && (s[j] == '\n' || s[j] == '\0')
    ensures forall k :: i <= k < j ==> s[k] != '\n'
    decreases |s| - i
  {
    if s[i] != '\n' && s[i] != '\0' then StepReachable(s, i); CommentEnd(s, i + 1) else i
  }

  /** The body of a string literal from `i` (just after the opening
      quote): where the cursor stops, the line counter then, and whether
      a closing quote was consumed. A newline counts a line when it is
      read as a character of its own; a backslash makes the loop step over
      the character after it. */
  datatype StringEnd = StringEnd(end: nat, line: int, closed: bool)

  function StringScan(s: seq<char>, i: nat, line: int): (r: StringEnd)
    requires Reachable(s, i)
    ensures i <= r.end && Reachable(s, r.end) && line <= r.line
    ensures r.closed ==> i < r.end && s[r.end - 1] == '"'
    ensures !r.closed ==> s[r.end] == '\0'
    decreases |s| - i
  {
    if s[i] == '"' then StepReachable(s, i); StringEnd(i + 1, line, true)
    else
      var line' := if s[i] == '\n' then line + 1 else line;
      var j := if s[i] == '\\' then i + 1 else i;
      if s[i] == '\\' then StepReachable(s, i); StringStep(s, j, line')
      else StringStep(s, j, line')
  }

  /** The tail of one iteration of the string loop at `j`: step over a
      character unless it is the terminator. */
  function StringStep(s: seq<char>, j: nat, line: int): (r: StringEnd)
    requires Reachable(s, j)
    ensures j <= r.end && Reachable(s, r.end) && line <= r.line
    ensures r.closed ==> j < r.end && s[r.end - 1] == '"'
    ensures !r.closed ==> s[r.end] == '\0'
    decreases |s| - j, 0
  {
    if s[j] != '\0' then StepReachable(s, j); StringScan(s, j + 1, line)
    else StringEnd(j, line, false)
  }

  /** A string literal opened at `i`: a string token when it is closed,
      an invalid token ending at the terminator otherwise. */
  function StringToken(s: seq<char>, i: nat, line: int): (r: Lexed)
    requires Reachable(s, i) && s[i] == '"'
    ensures Reachable(s, r.next) && i < r.next && r.token.start == i && r.token.end == r.next
    ensures r.token.line == r.line && line <= r.line
    ensures r.token.kind == String || r.token.kind == Invalid
  {
    StepReachable(s, i);
    var e := StringScan(s, i + 1, line);
    Lexed(Token(if e.closed then String else Invalid, i, e.end, e.line), e.end, e.line)
  }

  /** A number starting with the digit at `i`: the digit run, invalid
      when it is followed by a `.` and a non-digit. */
  function NumberToken(s: seq<char>, i: nat, line: int): (r: Lexed)
    requires Reachable(s, i) && IsDigit(s[i])
    ensures Reachable(s, r.next) && i < r.next && r.token.start == i && r.token.end == r.next
    ensures r.token.line == r.line == line
    ensures r.token.kind == Number || r.token.kind == Invalid
  {
    var j := DigitRun(s, i);
    var kind := if s[j] == '.' && !IsDigit(s[j + 1]) then Invalid else Number;
    Lexed(Token(kind, i, j, line), j, line)
  }

  /** A word starting with the letter at `i`: the run of letters and
      digits, classified by the keyword trie. */
  function WordToken(s: seq<char>, i: nat, line: int): (r: Lexed)
    requires Reachable(s, i) && IsAlpha(s[i])
    ensures Reachable(s, r.next) && i < r.next && r.token.start == i && r.token.end == r.next
    ensures r.token.line == r.line == line
    ensures r.token.kind != EndOfFile
  {
    var j := WordRun(s, i);
    Lexed(Token(KeywordType(s[i..j], s[j]), i, j, line), j, line)
  }

  /** Result of one call of the token reader: the token, and the cursor
      and line counter afterwards. */
  datatype Lexed = Lexed(token: Token, next: nat, line: int)

  /** The next token from position `i` with line counter `line`. */
  function NextToken(s: seq<char>, i: nat, line: int): (r: Lexed)
    requires Reachable(s, i)
    ensures Reachable(s, r.next)
    ensures i <= r.token.start <= r.token.end == r.next
    ensures r.token.line == r.line && line <= r.line
    ensures r.token.kind == EndOfFile <==> r.token.start == r.token.end
    ensures r.token.kind == EndOfFile ==> s[r.next] == '\0'
    decreases |s| - i
  {
    var c := s[i];
    if c == '\0' then
      Lexed(Token(EndOfFile, i, i, line), i, line)
    else
      StepReachable(s, i);
      if c == '#' then
        NextToken(s, CommentEnd(s, i + 1), line)
      else if IsBlank(c) then
        NextToken(s, i + 1, line)
      else
        Lexeme(s, i, line)
  }

  /** The token that starts on a character other than the terminator, a
      blank or a comment sign. */
  function Lexeme(s: seq<char>, i: nat, line: int): (r: Lexed)
    requires Reachable(s, i) && s[i] != '\0' && s[i] != '#' && !IsBlank(s[i])
    ensures Reachable(s, r.next)
    ensures i == r.token.start < r.token.end == r.next
    ensures r.token.line == r.line && line <= r.line
    ensures r.token.kind != EndOfFile
  {
    var c := s[i];
    if IsOperatorStart(c) then
      OperatorToken(s, i, line)
    else if c == '"' then
      StringToken(s, i, line)
    else if IsDigit(c) then
      NumberToken(s, i, line)
    else if IsAlpha(c) then
      WordToken(s, i, line)
    else
      StepReachable(s, i);
      Lexed(Token(Invalid, i, i + 1, line), i + 1, line)
  }

  /** Characters that start a punctuation token or a newline. */
  predicate IsOperatorStart(c: char)
  {
    SingleKind(c).Some? || c == '\n' || PairKinds(c).Some?
  }

  /** A punctuation token of one or two characters, or a newline, which
      also counts a line. */
  function OperatorToken(s: seq<char>, i: nat, line: int): (r: Lexed)
    requires Reachable(s, i) && IsOperatorStart(s[i])
    ensures Reachable(s, r.next)
    ensures i == r.token.start < r.token.end == r.next <= i + 2
    ensures r.token.line == r.line && line <= r.line
    ensures r.token.kind != EndOfFile && r.token.kind != Invalid
  {
    var c := s[i];
    StepReachable(s, i);
    if SingleKind(c).Some? then
      Lexed(Token(SingleKind(c).value, i, i + 1, line), i + 1, line)
    else if c == '\n' then
      Lexed(Token(Newline, i, i + 1, line + 1), i + 1, line + 1)
    else
      var (second, short, long) := PairKinds(c).value;
      if s[i + 1] == second then
        StepReachable(s, i + 1);
        Lexed(Token(long, i, i + 2, line), i + 2, line)
      else
        Lexed(Token(short, i, i + 1, line), i + 1, line)
  }

  /** An invalid token made of a character no branch accepts: the only
      token that clears the validity flag. */
  predicate Unexpected(s: seq<char>, t: Token)
  {
    t.kind == Invalid && t.start < |s| && IsStray(s[t.start])
  }

  /** The tokens appended from position `i` up to and including the
      end-of-file token, and whether the validity flag survives them. */
  datatype Scan = Scan(tokens: seq<Token>, valid: bool)

  function ScanFrom(s: seq<char>, i: nat, line: int): (r: Scan)
    requires Reachable(s, i)
    ensures |r.tokens| > 0
    decreases |s| - i
  {
    var l := NextToken(s, i, line);
    if l.token.kind == EndOfFile then Scan([l.token], !Unexpected(s, l.token))
    else
      var rest := ScanFrom(s, l.next, l.line);
      Scan([l.token] + rest.tokens, !Unexpected(s, l.token) && rest.valid)
  }

  /** One step of `ScanFrom`: the next token, then the scan from where
      it stopped unless it was the end-of-file token. */
  lemma ScanFromStep(s: seq<char>, i: nat, line: int)
    requires Reachable(s, i)
    ensures var l := NextToken(s, i, line);
            var r := ScanFrom(s, i, line);
            r.tokens[0] == l.token &&
            (l.token.kind == EndOfFile ==> r.tokens == [l.token] && r.valid == !Unexpected(s, l.token)) &&
            (l.token.kind != EndOfFile ==>
               r.tokens == [l.token] + ScanFrom(s, l.next, l.line).tokens &&
               r.valid == (!Unexpected(s, l.token) && ScanFrom(s, l.next, l.line).valid))
  {
  }

  /** The whole buffer, from its first character on line 1. */
  function ScanAll(s: seq<char>): Scan
    requires Terminated(s)
  {
    ScanFrom(s, 0, 1)
  }
}
