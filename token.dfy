/** Tokens as the scanner produces them and the parser consumes them.
    The token kinds are those the scanner, the parser and the diagnostic
    reporter refer to; `ConstantInt`, `ConstantFloat` and `Percent` are
    names the parser tests for and the scanner never produces. */
module Tokens {

  datatype TokenType =
    // single-character tokens
    | LeftParen | RightParen | LeftBrace | LeftSquare | RightSquare
    | Comma | Dot | Plus | Star | Modulo | Slash | Tab | Newline
    // one- or two-character tokens
    | Minus | Arrow | Colon | ColonColon | Bang | BangEqual
    | Equal | EqualEqual | Greater | GreaterEqual | Less | LessEqual
    // literals
    | Identifier | String | Number
    // kinds only the parser names
    | ConstantInt | ConstantFloat | Percent
    // keywords
    | KwAnd | KwArray | KwAs | KwBool | KwBreak | KwByte | KwConst | KwContinue
    | KwElse | KwEnum | KwFalse | KwFloat | KwFunc | KwIf | KwMap | KwOr
    | KwPass | KwPrint | KwPrintErr | KwRecipe | KwReturn | KwRef | KwStr
    | KwTrue | KwUint | KwWhile
    // sentinels
    | Invalid | EndOfFile

  /** A token: its kind, its lexeme as the half-open span `[start, end)`
      of the source buffer, and the line counter at the time it was made. */
  datatype Token = Token(kind: TokenType, start: nat, end: nat, line: int)
}
