/** The scanner's cursor machine: `start` and `current` index the source
    buffer, `line` counts newlines and `validInput` is cleared by an
    unexpected character. Each method is proved to do what the matching
    function of `ScannerSpec` says. */
module Scanner {
  import opened Base
  import opened Tokens
  import opened Keywords
  import opened Substring
  import opened ScannerSpec
  import opened TokenVector

  class Scanner {
    const source: seq<char>
    var start: nat
    var current: nat
    var line: int
    var validInput: bool

    ghost predicate Valid()
      reads this
    {
      Reachable(source, current) && start <= current
    }

    /** The cursors at the first character, on line 1, with the input
        still valid. */
    constructor (src: seq<char>)
      requires Terminated(src)
      ensures Valid() && source == src
      ensures start == 0 && current == 0 && line == 1 && validInput
    {
      source := src;
      start := 0;
      current := 0;
      line := 1;
      validInput := true;
    }

    /** `advance`: at the terminator it answers NUL and stays; otherwise
        it answers the current character and moves one forward. */
    method Advance() returns (c: char)
      requires Valid()
      modifies this`current
      ensures Valid()
      ensures old(source[current]) == '\0' ==> c == '\0' && current == old(current)
      ensures old(source[current]) != '\0' ==> c == old(source[current]) && current == old(current) + 1
    {
      if source[current] == '\0' {
        return '\0';
      }
      StepReachable(source, current);
      current := current + 1;
      c := source[current - 1];
    }

    /** `get_token`: one token from `current`, skipping blanks and
        comments, exactly as `NextToken` describes; only an unexpected
        character clears `validInput`. */
    method GetToken() returns (t: Token)
      requires Valid() && start == current
      modifies this`start, this`current, this`line, this`validInput
      ensures Valid() && start == t.start
      ensures var l := NextToken(source, old(current), old(line));
              t == l.token && current == l.next && line == l.line &&
              validInput == (old(validInput) && !Unexpected(source, t))
      decreases |source| - current
    {
      ghost var i0, line0 := current, line;
      var c := source[current];
      if c == '\0' {
        t := Token(EndOfFile, start, current, line);
      } else if c == '#' {
        SkipComment();
        assert NextToken(source, i0, line0) == NextToken(source, start, line);
        t := GetToken();
      } else if IsBlank(c) {
        c := Advance();
        start := current;
        assert NextToken(source, i0, line0) == NextToken(source, start, line);
        t := GetToken();
      } else {
        t := ReadLexeme();
      }
    }

    /** The comment case of `get_token`: steps over the `#` and up to,
        not over, the next newline or the terminator, and starts the next
        token there. */
    method SkipComment()
      requires Valid() && start == current && source[current] == '#'
      modifies this`start, this`current
      ensures Valid() && start == current
      ensures current == CommentEnd(source, old(current) + 1)
    {
      StepReachable(source, current);
      var c := Advance();
      while source[current] != '\n' && source[current] != '\0'
        invariant Valid() && start == old(current) < current
        invariant CommentEnd(source, current) == CommentEnd(source, start + 1)
        decreases |source| - current
      {
        c := Advance();
      }
      start := current;
    }

    /** The cases of `get_token` that produce a token from the current
        character: punctuation, newline, string, number, word, and the
        unexpected character, the only case that clears `validInput`. */
    method ReadLexeme() returns (t: Token)
      requires Valid() && start == current
      requires source[current] != '\0' && source[current] != '#' && !IsBlank(source[current])
      modifies this`current, this`line, this`validInput
      ensures Valid()
      ensures Lexeme(source, start, old(line)) == Lexed(t, current, line)
      ensures validInput == (old(validInput) && !Unexpected(source, t))
    {
      var c := source[current];
      if IsOperatorStart(c) {
        t := Operator();
      } else if c == '"' {
        c := Advance();
        t := StringLiteral();
      } else if IsDigit(c) {
        t := Digit();
      } else if IsAlpha(c) {
        t := Identifier();
      } else {
        validInput := false;
        c := Advance();
        t := Token(Invalid, start, current, line);
      }
    }

    /** The punctuation and newline cases of `get_token`: a newline
        counts a line first; `-`, `:`, `!`, `=`, `>` and `<` look one
        character ahead. */
    method Operator() returns (t: Token)
      requires Valid() && start == current && IsOperatorStart(source[current])
      modifies this`current, this`line
      ensures Valid()
      ensures OperatorToken(source, start, old(line)) == Lexed(t, current, line)
    {
      var c := source[current];
      if SingleKind(c).Some? {
        c := Advance();
        t := Token(SingleKind(c).value, start, current, line);
      } else if c == '\n' {
        line := line + 1;
        c := Advance();
        t := Token(Newline, start, current, line);
      } else {
        var (second, short, long) := PairKinds(c).value;
        c := Advance();
        if source[current] == second {
          c := Advance();
          t := Token(long, start, current, line);
        } else {
          t := Token(short, start, current, line);
        }
      }
    }

    /** `string`, entered just after the opening quote at `start`: the
        literal up to and including its closing quote, or an invalid
        token ending at the terminator. */
    method StringLiteral() returns (t: Token)
      requires Valid() && source[start] == '"' && current == start + 1
      modifies this`current, this`line
      ensures Valid()
      ensures StringToken(source, start, old(line)) == Lexed(t, current, line)
    {
      ghost var want := StringScan(source, current, line);
      while source[current] != '"'
        invariant Valid() && start < current
        invariant StringScan(source, current, line) == want
        decreases |source| - current
      {
        var c;
        if source[current] == '\n' {
          line := line + 1;
        }
        if source[current] == '\\' {
          c := Advance();
        }
        if source[current] != '\0' {
          c := Advance();
          continue;
        }
        return Token(Invalid, start, current, line);
      }
      var c := Advance();
      t := Token(String, start, current, line);
    }

    /** `digit`: the run of digits. A `.` after it is never consumed: the
        token is invalid when the character after the `.` is not a digit,
        and a number otherwise, because the second digit loop starts on
        the `.` itself. */
    method Digit() returns (t: Token)
      requires Valid() && start == current && IsDigit(source[current])
      modifies this`current
      ensures Valid()
      ensures NumberToken(source, start, line) == Lexed(t, current, line)
    {
      var c;
      while IsDigit(source[current])
        invariant Valid() && start <= current
        invariant DigitRun(source, current) == DigitRun(source, start)
        decreases |source| - current
      {
        c := Advance();
      }
      if source[current] != '.' {
        return Token(Number, start, current, line);
      }
      StepReachable(source, current);
      if !IsDigit(source[current + 1]) {
        // the skip over trailing letters and digits stops at once on the '.'
        return Token(Invalid, start, current, line);
      }
      // the fraction loop tests the '.' and consumes nothing
      t := Token(Number, start, current, line);
    }

    /** `identifier`: the run of letters and digits, copied out and
        classified by the keyword trie, which also looks at the source
        character after the run. */
    method Identifier() returns (t: Token)
      requires Valid() && start == current && IsAlpha(source[current])
      modifies this`current
      ensures Valid()
      ensures WordToken(source, start, line) == Lexed(t, current, line)
    {
      var c;
      while IsWordChar(source[current])
        invariant Valid() && start <= current
        invariant WordRun(source, current) == WordRun(source, start)
        decreases |source| - current
      {
        c := Advance();
      }
      var kind := ClassifyWord();
      t := Token(kind, start, current, line);
    }

    /** The classification step of `identifier`: the lexeme is copied
        into a fresh array with its terminator and the copy, together with
        the source character after the run, goes to the keyword trie. */
    method ClassifyWord() returns (kind: TokenType)
      requires Valid() && start <= current
      ensures kind == KeywordType(source[start..current], source[current])
    {
      var n := current - start;
      var copy := new char[n + 1];
      Copy(source, start, current, copy);
      CopyOfPlainText(source, start, current);
      assert copy[..n] == source[start..current];
      kind := KeywordType(copy[..n], source[current]);
    }

    /** One pass of the `scan_tokens` loop: the next token, appended. */
    method ScanOne(tv: TokenVector) returns (t: Token)
      requires Valid() && tv.Valid()
      modifies this`start, this`current, this`line, this`validInput, tv, tv.slots
      ensures Valid() && tv.Valid()
      ensures tv.slots == old(tv.slots) || fresh(tv.slots)
      ensures tv.Items() == old(tv.Items()) + [t]
      ensures var l := NextToken(source, old(current), old(line));
              t == l.token && current == l.next && line == l.line &&
              validInput == (old(validInput) && !Unexpected(source, t))
    {
      start := current;
      t := GetToken();
      tv.Add(t);
    }

    /** `scan_tokens`: appends tokens until it has appended the
        end-of-file token; the vector then holds what `ScanFrom` lists. */
    method ScanTokens(tv: TokenVector)
      requires Valid() && tv.Valid()
      modifies this`start, this`current, this`line, this`validInput, tv, tv.slots
      ensures Valid() && tv.Valid()
      ensures var r := ScanFrom(source, old(current), old(line));
              tv.Items() == old(tv.Items()) + r.tokens &&
              validInput == (old(validInput) && r.valid)
    {
      ghost var whole := ScanFrom(source, current, line);
      ghost var initial := tv.Items();
      ghost var rest := whole;
      ghost var emitted: seq<Token> := [];
      var done := false;
      while !done
        invariant Valid() && tv.Valid()
        invariant tv.slots == old(tv.slots) || fresh(tv.slots)
        invariant tv.Items() == initial + emitted
        invariant !done ==> rest == ScanFrom(source, current, line)
        invariant !done ==> emitted + rest.tokens == whole.tokens
        invariant !done ==> (validInput && rest.valid) == (old(validInput) && whole.valid)
        invariant done ==> emitted == whole.tokens
        invariant done ==> validInput == (old(validInput) && whole.valid)
        decreases (if done then 0 else 1), |source| - current
      {
        ScanFromStep(source, current, line);
        ghost var rest0, emitted0 := rest, emitted;
        var t := ScanOne(tv);
        emitted := emitted + [t];
        done := t.kind == EndOfFile;
        if !done {
          rest := ScanFrom(source, current, line);
        }
        Regroup(initial, emitted0, t, rest.tokens);
      }
    }
  }

  /** The bookkeeping of one pass of `scan_tokens`: a token moves from
      the front of what is left to the end of what was appended. */
  lemma Regroup(initial: seq<Token>, emitted: seq<Token>, t: Token, rest: seq<Token>)
    ensures (initial + emitted) + [t] == initial + (emitted + [t])
    ensures emitted + ([t] + rest) == (emitted + [t]) + rest
  {
  }

  /** `scan_init` on a buffer: the token vector of the whole buffer, or
      nothing when an unexpected character cleared the validity flag
      (the source exits the process there). */
  method ScanInit(src: seq<char>) returns (tokens: Option<TokenVector>)
    requires Terminated(src)
    ensures tokens.None? <==> !ScanAll(src).valid
    ensures tokens.Some? ==> fresh(tokens.value) && tokens.value.Valid()
    ensures tokens.Some? ==> tokens.value.Items() == ScanAll(src).tokens
  {
    var scanner := new Scanner(src);
    var tv := new TokenVector();
    scanner.ScanTokens(tv);
    if !scanner.validInput {
      return None;
    }
    tokens := Some(tv);
  }
}
