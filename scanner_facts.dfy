/** What the scanner promises about the tokens it produces. */
module ScannerFacts {
  import opened Tokens
  import opened Keywords
  import opened ScannerSpec

  /** The scan ends with exactly one end-of-file token; it is empty and
      sits on the first NUL of the buffer. */
  lemma {:induction false} ScanEndsWithEof(s: seq<char>, i: nat, line: int)
    requires Reachable(s, i)
    ensures var ts := ScanFrom(s, i, line).tokens;
            var eof := ts[|ts| - 1];
            eof.kind == EndOfFile && eof.start == eof.end &&
            Reachable(s, eof.start) && s[eof.start] == '\0' &&
            forall k :: 0 <= k < |ts| - 1 ==> ts[k].kind != EndOfFile
    decreases |s| - i
  {
    var l := NextToken(s, i, line);
    ScanFromStep(s, i, line);
    if l.token.kind != EndOfFile {
      ScanEndsWithEof(s, l.next, l.line);
      var ts := ScanFrom(s, i, line).tokens;
      var rest := ScanFrom(s, l.next, l.line).tokens;
      assert ts[|ts| - 1] == rest[|rest| - 1];
      forall k | 0 <= k < |ts| - 1
        ensures ts[k].kind != EndOfFile
      {
        if k > 0 {
          assert ts[k] == rest[k - 1];
        }
      }
    }
  }

  /** Tokens lie inside the buffer, each starts after the previous one
      ends, and the lines of the tokens never decrease. */
  lemma {:induction false} ScanOrdered(s: seq<char>, i: nat, line: int)
    requires Reachable(s, i)
    ensures var ts := ScanFrom(s, i, line).tokens;
            (forall k :: 0 <= k < |ts| ==> i <= ts[k].start <= ts[k].end < |s| && line <= ts[k].line) &&
            (forall k :: 0 <= k < |ts| - 1 ==> ts[k].end <= ts[k + 1].start && ts[k].line <= ts[k + 1].line)
    decreases |s| - i
  {
    var l := NextToken(s, i, line);
    ScanFromStep(s, i, line);
    if l.token.kind != EndOfFile {
      ScanOrdered(s, l.next, l.line);
      var ts := ScanFrom(s, i, line).tokens;
      var rest := ScanFrom(s, l.next, l.line).tokens;
      assert ts == [l.token] + rest;
      assert forall k :: 1 <= k < |ts| ==> ts[k] == rest[k - 1];
    }
  }

  /** No token of `ts` is an unexpected character. */
  predicate NoneUnexpected(s: seq<char>, ts: seq<Token>)
  {
    forall k :: 0 <= k < |ts| ==> !Unexpected(s, ts[k])
  }

  lemma NoneUnexpectedCons(s: seq<char>, t: Token, ts: seq<Token>)
    ensures NoneUnexpected(s, [t] + ts) <==> !Unexpected(s, t) && NoneUnexpected(s, ts)
  {
    var all := [t] + ts;
    if NoneUnexpected(s, all) {
      assert !Unexpected(s, all[0]);
      forall k | 0 <= k < |ts| ensures !Unexpected(s, ts[k]) {
        assert ts[k] == all[k + 1];
      }
    }
    if !Unexpected(s, t) && NoneUnexpected(s, ts) {
      forall k | 0 <= k < |all| ensures !Unexpected(s, all[k]) {
        if k > 0 { assert all[k] == ts[k - 1]; }
      }
    }
  }

  /** The validity flag survives the scan exactly when no token is an
      unexpected character: unterminated strings and malformed numbers
      give invalid tokens without clearing it. */
  lemma {:induction false} ScanValidity(s: seq<char>, i: nat, line: int)
    requires Reachable(s, i)
    ensures var r := ScanFrom(s, i, line);
            r.valid <==> NoneUnexpected(s, r.tokens)
    decreases |s| - i
  {
    var l := NextToken(s, i, line);
    ScanFromStep(s, i, line);
    if l.token.kind != EndOfFile {
      ScanValidity(s, l.next, l.line);
      NoneUnexpectedCons(s, l.token, ScanFrom(s, l.next, l.line).tokens);
    } else {
      NoneUnexpectedCons(s, l.token, []);
      assert [l.token] + [] == [l.token];
    }
  }

  /** Blanks and comments give no token: the reader answers the token
      after them, and a comment stops before the newline, which then
      becomes a token of its own. */
  lemma SkippedText(s: seq<char>, i: nat, line: int)
    requires Reachable(s, i) && (IsBlank(s[i]) || s[i] == '#')
    ensures s[i] != '\0'
    ensures var j := if s[i] == '#' then CommentEnd(s, i + 1) else i + 1;
            j > i &&
            NextToken(s, i, line) == NextToken(s, j, line) &&
            NextToken(s, i, line).token.start >= j &&
            (s[i] == '#' && s[j] == '\n' ==>
               NextToken(s, i, line).token == Token(Newline, j, j + 1, line + 1))
  {
    StepReachable(s, i);
  }

  /** A tab and a newline are one-character tokens; the newline token
      carries the line it increments to. A closing brace is scanned as a
      right parenthesis. */
  lemma LayoutTokens(s: seq<char>, i: nat, line: int)
    requires Reachable(s, i) && (s[i] == '\t' || s[i] == '\n' || s[i] == '}')
    ensures var l := NextToken(s, i, line);
            l.token.start == i && l.next == i + 1 && !Unexpected(s, l.token) &&
            (s[i] == '\t' ==> l.token.kind == Tab && l.line == line) &&
            (s[i] == '}' ==> l.token.kind == RightParen && l.line == line) &&
            (s[i] == '\n' ==> l.token.kind == Newline && l.line == line + 1 && l.token.line == line + 1)
  {
  }

  /** The operators that look one character ahead take the second
      character exactly when it completes the two-character operator. */
  lemma TwoCharacterOperators(s: seq<char>, i: nat, line: int)
    requires Reachable(s, i) && PairKinds(s[i]).Some?
    ensures i + 1 < |s|
    ensures var t := NextToken(s, i, line).token;
            t.start == i && t.line == line &&
            (s[i] == '-' ==> (t.kind == Arrow <==> s[i + 1] == '>') && (t.kind == Minus <==> s[i + 1] != '>')) &&
            (s[i] == ':' ==> (t.kind == ColonColon <==> s[i + 1] == ':') && (t.kind == Colon <==> s[i + 1] != ':')) &&
            (s[i] == '!' ==> (t.kind == BangEqual <==> s[i + 1] == '=') && (t.kind == Bang <==> s[i + 1] != '=')) &&
            (s[i] == '=' ==> (t.kind == EqualEqual <==> s[i + 1] == '=') && (t.kind == Equal <==> s[i + 1] != '=')) &&
            (s[i] == '>' ==> (t.kind == GreaterEqual <==> s[i + 1] == '=') && (t.kind == Greater <==> s[i + 1] != '=')) &&
            (s[i] == '<' ==> (t.kind == LessEqual <==> s[i + 1] == '=') && (t.kind == Less <==> s[i + 1] != '=')) &&
            (t.end == i + 2 <==> t.kind in {Arrow, ColonColon, BangEqual, EqualEqual, GreaterEqual, LessEqual}) &&
            (t.end == i + 1 <==> t.kind in {Minus, Colon, Bang, Equal, Greater, Less})
  {
    StepReachable(s, i);
  }

  /** A number is the run of digits from its first digit. A `.` after it
      stays for the next token; the number is invalid exactly when the
      `.` is not followed by a digit. */
  lemma NumberLexeme(s: seq<char>, i: nat, line: int)
    requires Reachable(s, i) && IsDigit(s[i])
    ensures var t := NextToken(s, i, line).token;
            t.start == i < t.end && !IsDigit(s[t.end]) &&
            (forall k :: i <= k < t.end ==> IsDigit(s[k])) &&
            (s[t.end] == '.' ==>
               (t.end + 1 < |s| &&
                (t.kind == Invalid <==> !IsDigit(s[t.end + 1])) &&
                (t.kind == Number <==> IsDigit(s[t.end + 1])))) &&
            (s[t.end] != '.' ==> t.kind == Number)
  {
    var j := DigitRun(s, i);
    if s[j] == '.' {
      StepReachable(s, j);
    }
  }

  /** `3.5` does not scan as one number: the first token is the number
      `3` and the `.` is left for a token of its own. */
  lemma FractionSplits()
    ensures NextToken("3.5\0", 0, 1) == Lexed(Token(Number, 0, 1, 1), 1, 1)
    ensures NextToken("3.5\0", 1, 1) == Lexed(Token(Dot, 1, 2, 1), 2, 1)
    ensures NextToken("3.5\0", 2, 1) == Lexed(Token(Number, 2, 3, 1), 3, 1)
  {
    var s := "3.5\0";
    assert Reachable(s, 2) && Reachable(s, 1) && Reachable(s, 0);
    NumberLexeme(s, 0, 1);
    NumberLexeme(s, 2, 1);
  }

  /** `3.` gives an invalid token over the digit, then the dot. */
  lemma TrailingPeriod()
    ensures NextToken("3.\0", 0, 1) == Lexed(Token(Invalid, 0, 1, 1), 1, 1)
    ensures NextToken("3.\0", 1, 1) == Lexed(Token(Dot, 1, 2, 1), 2, 1)
  {
    var u := "3.\0";
    assert Reachable(u, 1) && Reachable(u, 0);
    NumberLexeme(u, 0, 1);
  }

  /** Number of newline characters in `t`. */
  function Newlines(t: seq<char>): (n: nat)
    ensures n <= |t|
  {
    if t == [] then 0 else (if t[0] == '\n' then 1 else 0) + Newlines(t[1..])
  }

  /** A literal without backslashes runs to the first quote after the
      opening one, inclusive, and counts one line per newline inside. */
  lemma PlainString(s: seq<char>, i: nat, j: nat, line: int)
    requires Reachable(s, i) && s[i] == '"' && i < j < |s| && s[j] == '"'
    requires forall k :: i < k < j ==> s[k] != '"' && s[k] != '\\' && s[k] != '\0'
    ensures NextToken(s, i, line) ==
              Lexed(Token(String, i, j + 1, line + Newlines(s[i + 1..j])), j + 1, line + Newlines(s[i + 1..j]))
  {
    StepReachable(s, i);
    PlainStringBody(s, i + 1, j, line);
  }

  lemma {:induction false} PlainStringBody(s: seq<char>, k: nat, j: nat, line: int)
    requires Reachable(s, k) && k <= j < |s| && s[j] == '"'
    requires forall m :: k <= m < j ==> s[m] != '"' && s[m] != '\\' && s[m] != '\0'
    ensures StringScan(s, k, line) == StringEnd(j + 1, line + Newlines(s[k..j]), true)
    decreases j - k
  {
    if k < j {
      StepReachable(s, k);
      var line' := if s[k] == '\n' then line + 1 else line;
      PlainStringBody(s, k + 1, j, line');
      assert s[k..j][1..] == s[k + 1..j];
    }
  }

  /** A backslash makes the string loop step over the next character, so
      an escaped quote does not close the literal ... */
  lemma EscapedQuote()
    ensures NextToken("\"a\\\"b\"\0", 0, 1) == Lexed(Token(String, 0, 6, 1), 6, 1)
  {
    var s := "\"a\\\"b\"\0";
    assert Reachable(s, 6);
    assert StringScan(s, 1, 1) == StringEnd(6, 1, true);
  }

  /** ... and an escaped newline is not counted. */
  lemma EscapedNewline()
    ensures NextToken("\"\\\n\"\0", 0, 1) == Lexed(Token(String, 0, 4, 1), 4, 1)
  {
    var u := "\"\\\n\"\0";
    assert Reachable(u, 4);
    assert StringScan(u, 1, 1) == StringEnd(4, 1, true);
  }

  /** A literal that meets the terminator is an invalid token ending
      there. */
  lemma UnterminatedString()
    ensures NextToken("\"ab\0", 0, 1) == Lexed(Token(Invalid, 0, 3, 1), 3, 1)
  {
    var v := "\"ab\0";
    assert Reachable(v, 3);
    assert StringScan(v, 1, 1) == StringEnd(3, 1, false);
  }

  /** A word is the longest run of letters and digits from its first
      letter. Away from the lexemes on which the trie skips letters it
      gets the kind of its exact spelling, and an exact spelling always
      gets its kind. */
  lemma WordLexeme(s: seq<char>, i: nat, line: int)
    requires Reachable(s, i) && IsAlpha(s[i]) && SingleKind(s[i]).None?
    ensures var t := NextToken(s, i, line).token;
            var w := s[i..t.end];
            t.start == i < t.end && !IsWordChar(s[t.end]) &&
            (forall k :: i <= k < t.end ==> IsWordChar(s[k])) &&
            (w in Spellings ==> t.kind == Spellings[w]) &&
            (!SkipsLetters(w) ==> t.kind == KeywordOf(w))
  {
    var j := WordRun(s, i);
    var w := s[i..j];
    assert NextToken(s, i, line) == WordToken(s, i, line);
    assert WordToken(s, i, line).token == Token(KeywordType(w, s[j]), i, j, line);
    assert NoNul(w);
    if w in Spellings {
      SpellingsRecognised(w, s[j]);
    }
    if !SkipsLetters(w) {
      KeywordTypeIsLookup(w, s[j]);
    }
  }

  /** `int` is scanned as the `func` keyword. */
  lemma IntIsFunc()
    ensures ScanAll("int\0").tokens == [Token(KwFunc, 0, 3, 1), Token(EndOfFile, 3, 3, 1)]
  {
    var s := "int\0";
    assert Reachable(s, 3) && Reachable(s, 0);
    assert NextToken(s, 3, 1) == Lexed(Token(EndOfFile, 3, 3, 1), 3, 1);
    ScanFromStep(s, 3, 1);
    assert WordRun(s, 0) == 3;
    assert s[0..3] == "int";
    SpellingsRecognised("int", '\0');
    assert WordToken(s, 0, 1) == Lexed(Token(KwFunc, 0, 3, 1), 3, 1);
    assert NextToken(s, 0, 1) == WordToken(s, 0, 1);
    ScanFromStep(s, 0, 1);
  }
}
