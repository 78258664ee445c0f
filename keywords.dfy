/** The keyword decision of the scanner: a hand-written trie over the
    copied lexeme, by first character and then by the characters that
    tell the candidates apart. */
module Keywords {
  import opened Tokens

  /** Character `k` of the NUL-terminated copy of `w` (the copy holds
      `|w| + 1` characters; index `|w|` is its terminator). */
  function At(w: seq<char>, k: nat): char
  {
    if k < |w| then w[k] else '\0'
  }

  /** `keywordcmp(offset, rest, kind)`: the copy from `offset` on must be
      exactly `rest`. */
  function Compare(w: seq<char>, offset: nat, rest: seq<char>, kind: TokenType): TokenType
    requires offset <= |w|
  {
    if w[offset..] == rest then kind else Identifier
  }

  /** `strncmp(start + from, str + from, n) == 0`, which compares the
      source text with its own copy. Inside the lexeme both agree; at
      index `|w|` the source holds the character after the lexeme
      (`follower`) and the copy holds its terminator, so the two compare
      equal exactly when the lexeme reaches `from + n` or the lexeme is
      followed by the end of the buffer. */
  predicate SelfCompareEqual(w: seq<char>, from: nat, n: nat, follower: char)
  {
    |w| >= from + n || follower == '\0'
  }

  /** `get_keyword_type` as written. `follower` is the source character
      right after the lexeme. When the self-comparison passes for a
      lexeme shorter than the index read next (`str[3]`, `str[5]`), the
      source reads past the copy; the model answers `Identifier` there. */
  function KeywordType(w: seq<char>, follower: char): (r: TokenType)
    ensures r == Identifier || r in KeywordKinds
  {
    match At(w, 0)
    case 'a' =>
      (match At(w, 1)
       case 'n' => Compare(w, 2, "d", KwAnd)
       case 'r' => Compare(w, 2, "ray", KwArray)
       case 's' => if At(w, 2) == '\0' then KwAs else Identifier
       case _ => Identifier)
    case 'b' =>
      (match At(w, 1)
       case 'o' => Compare(w, 2, "ol", KwBool)
       case 'r' => Compare(w, 2, "eak", KwBreak)
       case 'y' => Compare(w, 2, "te", KwByte)
       case _ => Identifier)
    case 'c' =>
      if !SelfCompareEqual(w, 1, 2, follower) || |w| < 3 then Identifier
      else
        (match At(w, 3)
         case 's' => Compare(w, 4, "t", KwConst)
         case 't' => Compare(w, 4, "inue", KwContinue)
         case _ => Identifier)
    case 'e' =>
      (match At(w, 1)
       case 'l' => Compare(w, 2, "se", KwElse)
       case 'n' => Compare(w, 2, "um", KwEnum)
       case _ => Identifier)
    case 'f' =>
      (match At(w, 1)
       case 'a' => Compare(w, 2, "lse", KwFalse)
       case 'l' => Compare(w, 2, "oat", KwFloat)
       case 'u' => Compare(w, 2, "nc", KwFunc)
       case _ => Identifier)
    case 'i' =>
      (match At(w, 1)
       case 'n' => Compare(w, 2, "t", KwFunc)
       case 'f' => if At(w, 2) == '\0' then KwIf else Identifier
       case _ => Identifier)
    case 'm' => Compare(w, 1, "ap", KwMap)
    case 'o' => Compare(w, 1, "r", KwOr)
    case 'p' =>
      (match At(w, 1)
       case 'a' => Compare(w, 2, "ss", KwPass)
       case 'r' =>
         if !SelfCompareEqual(w, 2, 3, follower) || |w| < 5 then Identifier
         else if At(w, 5) == '\0' then KwPrint
         else Compare(w, 5, "_err", KwPrintErr)
       case _ => Identifier)
    case 'r' =>
      if At(w, 1) != 'e' then Identifier
      else
        (match At(w, 2)
         case 'c' => Compare(w, 3, "ipe", KwRecipe)
         case 't' => Compare(w, 3, "urn", KwReturn)
         case 'f' => if At(w, 3) == '\0' then KwRef else Identifier
         case _ => Identifier)
    case 's' =>
      (match At(w, 1)
       case 'b' => Compare(w, 2, "yte", KwByte)
       case 't' => Compare(w, 2, "r", KwStr)
       case _ => Identifier)
    case 't' => Compare(w, 1, "rue", KwTrue)
    case 'u' => Compare(w, 1, "int", KwUint)
    case 'w' => Compare(w, 1, "hile", KwWhile)
    case _ => Identifier
  }

  const KeywordKinds: set<TokenType> :=
    {KwAnd, KwArray, KwAs, KwBool, KwBreak, KwByte, KwConst, KwContinue,
     KwElse, KwEnum, KwFalse, KwFloat, KwFunc, KwIf, KwMap, KwOr,
     KwPass, KwPrint, KwPrintErr, KwRecipe, KwReturn, KwRef, KwStr,
     KwTrue, KwUint, KwWhile}

  /** The spellings the trie recognises and the kind each one gets:
      `int` is classified as `KwFunc` and `sbyte` as `KwByte`. */
  const Spellings: map<seq<char>, TokenType> :=
    map["and" := KwAnd, "array" := KwArray, "as" := KwAs, "bool" := KwBool,
        "break" := KwBreak, "byte" := KwByte, "const" := KwConst,
        "continue" := KwContinue, "else" := KwElse, "enum" := KwEnum,
        "false" := KwFalse, "float" := KwFloat, "func" := KwFunc,
        "if" := KwIf, "int" := KwFunc, "map" := KwMap, "or" := KwOr,
        "pass" := KwPass, "print" := KwPrint, "print_err" := KwPrintErr,
        "recipe" := KwRecipe, "return" := KwReturn, "ref" := KwRef,
        "sbyte" := KwByte, "str" := KwStr, "true" := KwTrue,
        "uint" := KwUint, "while" := KwWhile]

  /** The keyword decision the trie evidently intends: an exact lookup of
      the whole lexeme. */
  function KeywordOf(w: seq<char>): (r: TokenType)
    ensures r != Identifier <==> w in Spellings
    ensures w in Spellings ==> r == Spellings[w]
  {
    if w in Spellings then Spellings[w] else Identifier
  }

  /** Every spelling is recognised, whatever character follows it. */
  lemma SpellingsRecognised(w: seq<char>, follower: char)
    requires w in Spellings
    ensures KeywordType(w, follower) == Spellings[w]
  {
    SpellingsListed(w);
    if w == "and" || w == "array" || w == "as" {
      RecognisedA(w, follower);
    } else if w == "bool" || w == "break" || w == "byte" {
      RecognisedB(w, follower);
    } else if w == "const" || w == "continue" {
      RecognisedC(w, follower);
    } else if w == "else" || w == "enum" {
      RecognisedE(w, follower);
    } else if w == "false" || w == "float" || w == "func" {
      RecognisedF(w, follower);
    } else if w == "int" || w == "if" {
      RecognisedI(w, follower);
    } else if w == "map" {
      RecognisedM(w, follower);
    } else if w == "or" {
      RecognisedO(w, follower);
    } else if w == "pass" || w == "print" || w == "print_err" {
      RecognisedP(w, follower);
    } else if w == "recipe" || w == "return" || w == "ref" {
      RecognisedR(w, follower);
    } else if w == "sbyte" || w == "str" {
      RecognisedS(w, follower);
    } else if w == "true" {
      RecognisedT(w, follower);
    } else if w == "uint" {
      RecognisedU(w, follower);
    } else if w == "while" {
      RecognisedW(w, follower);
    }
  }

  /** The spellings, written out. */
  lemma SpellingsListed(w: seq<char>)
    requires w in Spellings
    ensures w == "and" || w == "array" || w == "as" || w == "bool" || w == "break" ||
            w == "byte" || w == "const" || w == "continue" || w == "else" || w == "enum" ||
            w == "false" || w == "float" || w == "func" || w == "int" || w == "if" ||
            w == "map" || w == "or" || w == "pass" || w == "print" || w == "print_err" ||
            w == "recipe" || w == "return" || w == "ref" || w == "sbyte" || w == "str" ||
            w == "true" || w == "uint" || w == "while"
  {
  }

  lemma RecognisedA(w: seq<char>, follower: char)
    requires w == "and" || w == "array" || w == "as"
    ensures w in Spellings && KeywordType(w, follower) == Spellings[w]
  {
  }

  lemma RecognisedB(w: seq<char>, follower: char)
    requires w == "bool" || w == "break" || w == "byte"
    ensures w in Spellings && KeywordType(w, follower) == Spellings[w]
  {
  }

  lemma RecognisedC(w: seq<char>, follower: char)
    requires w == "const" || w == "continue"
    ensures w in Spellings && KeywordType(w, follower) == Spellings[w]
  {
  }

  lemma RecognisedE(w: seq<char>, follower: char)
    requires w == "else" || w == "enum"
    ensures w in Spellings && KeywordType(w, follower) == Spellings[w]
  {
  }

  lemma RecognisedF(w: seq<char>, follower: char)
    requires w == "false" || w == "float" || w == "func"
    ensures w in Spellings && KeywordType(w, follower) == Spellings[w]
  {
  }

  lemma RecognisedI(w: seq<char>, follower: char)
    requires w == "int" || w == "if"
    ensures w in Spellings && KeywordType(w, follower) == Spellings[w]
  {
  }

  lemma RecognisedM(w: seq<char>, follower: char)
    requires w == "map"
    ensures w in Spellings && KeywordType(w, follower) == Spellings[w]
  {
  }

  lemma RecognisedO(w: seq<char>, follower: char)
    requires w == "or"
    ensures w in Spellings && KeywordType(w, follower) == Spellings[w]
  {
  }

  lemma RecognisedP(w: seq<char>, follower: char)
    requires w == "pass" || w == "print" || w == "print_err"
    ensures w in Spellings && KeywordType(w, follower) == Spellings[w]
  {
  }

  lemma RecognisedR(w: seq<char>, follower: char)
    requires w == "recipe" || w == "return" || w == "ref"
    ensures w in Spellings && KeywordType(w, follower) == Spellings[w]
  {
  }

  lemma RecognisedS(w: seq<char>, follower: char)
    requires w == "sbyte" || w == "str"
    ensures w in Spellings && KeywordType(w, follower) == Spellings[w]
  {
  }

  lemma RecognisedT(w: seq<char>, follower: char)
    requires w == "true"
    ensures w in Spellings && KeywordType(w, follower) == Spellings[w]
  {
  }

  lemma RecognisedU(w: seq<char>, follower: char)
    requires w == "uint"
    ensures w in Spellings && KeywordType(w, follower) == Spellings[w]
  {
  }

  lemma RecognisedW(w: seq<char>, follower: char)
    requires w == "while"
    ensures w in Spellings && KeywordType(w, follower) == Spellings[w]
  {
  }

  /** Lexemes never contain the terminator. */
  predicate NoNul(w: seq<char>)
  {
    forall k :: 0 <= k < |w| ==> w[k] != '\0'
  }

  /** The lexemes on which the self-comparisons let the trie skip
      characters: a `c` word whose letters 1 and 2 are not "on" but whose
      tail is that of `const` or `continue`, and a `pr` word whose letters
      2 to 4 are not "int" but which ends like `print` or `print_err`. */
  predicate SkipsLetters(w: seq<char>)
  {
    (|w| >= 4 && w[0] == 'c' && w[1..3] != "on" && (w[3..] == "st" || w[3..] == "tinue")) ||
    (|w| >= 5 && w[..2] == "pr" && w[2..5] != "int" && (|w| == 5 || w[5..] == "_err"))
  }

  /** Whatever the trie accepts away from those lexemes is the exact
      spelling of the keyword it answers. */
  lemma TrieSound(w: seq<char>, follower: char)
    requires NoNul(w) && !SkipsLetters(w)
    ensures KeywordType(w, follower) != Identifier ==>
              w in Spellings && Spellings[w] == KeywordType(w, follower)
  {
    if KeywordType(w, follower) != Identifier {
      assert |w| > 0;
      match w[0]
      case 'a' => AcceptsA(w, follower);
      case 'b' => AcceptsB(w, follower);
      case 'c' => AcceptsC(w, follower);
      case 'e' => AcceptsE(w, follower);
      case 'f' => AcceptsF(w, follower);
      case 'i' => AcceptsI(w, follower);
      case 'm' => AcceptsM(w, follower);
      case 'o' => AcceptsO(w, follower);
      case 'p' => AcceptsP(w, follower);
      case 'r' => AcceptsR(w, follower);
      case 's' => AcceptsS(w, follower);
      case 't' => AcceptsT(w, follower);
      case 'u' => AcceptsU(w, follower);
      case 'w' => AcceptsW(w, follower);
      case _ =>
    }
  }

  lemma AcceptsA(w: seq<char>, follower: char)
    requires NoNul(w) && |w| > 0 && w[0] == 'a' && !SkipsLetters(w)
    ensures KeywordType(w, follower) != Identifier ==>
              w in Spellings && Spellings[w] == KeywordType(w, follower)
  {
    if KeywordType(w, follower) != Identifier {
      assert w == "and" || w == "array" || w == "as";
      RecognisedA(w, follower);
    }
  }

  lemma AcceptsB(w: seq<char>, follower: char)
    requires NoNul(w) && |w| > 0 && w[0] == 'b' && !SkipsLetters(w)
    ensures KeywordType(w, follower) != Identifier ==>
              w in Spellings && Spellings[w] == KeywordType(w, follower)
  {
    if KeywordType(w, follower) != Identifier {
      assert w == "bool" || w == "break" || w == "byte";
      RecognisedB(w, follower);
    }
  }

  lemma AcceptsC(w: seq<char>, follower: char)
    requires NoNul(w) && |w| > 0 && w[0] == 'c' && !SkipsLetters(w)
    ensures KeywordType(w, follower) != Identifier ==>
              w in Spellings && Spellings[w] == KeywordType(w, follower)
  {
    if KeywordType(w, follower) != Identifier {
      assert w == "const" || w == "continue";
      RecognisedC(w, follower);
    }
  }

  lemma AcceptsE(w: seq<char>, follower: char)
    requires NoNul(w) && |w| > 0 && w[0] == 'e' && !SkipsLetters(w)
    ensures KeywordType(w, follower) != Identifier ==>
              w in Spellings && Spellings[w] == KeywordType(w, follower)
  {
    if KeywordType(w, follower) != Identifier {
      assert w == "else" || w == "enum";
      RecognisedE(w, follower);
    }
  }

  lemma AcceptsF(w: seq<char>, follower: char)
    requires NoNul(w) && |w| > 0 && w[0] == 'f' && !SkipsLetters(w)
    ensures KeywordType(w, follower) != Identifier ==>
              w in Spellings && Spellings[w] == KeywordType(w, follower)
  {
    if KeywordType(w, follower) != Identifier {
      assert w == "false" || w == "float" || w == "func";
      RecognisedF(w, follower);
    }
  }

  lemma AcceptsI(w: seq<char>, follower: char)
    requires NoNul(w) && |w| > 0 && w[0] == 'i' && !SkipsLetters(w)
    ensures KeywordType(w, follower) != Identifier ==>
              w in Spellings && Spellings[w] == KeywordType(w, follower)
  {
    if KeywordType(w, follower) != Identifier {
      assert w == "int" || w == "if";
      RecognisedI(w, follower);
    }
  }

  lemma AcceptsM(w: seq<char>, follower: char)
    requires NoNul(w) && |w| > 0 && w[0] == 'm' && !SkipsLetters(w)
    ensures KeywordType(w, follower) != Identifier ==>
              w in Spellings && Spellings[w] == KeywordType(w, follower)
  {
    if KeywordType(w, follower) != Identifier {
      assert w == "map";
      RecognisedM(w, follower);
    }
  }

  lemma AcceptsO(w: seq<char>, follower: char)
    requires NoNul(w) && |w| > 0 && w[0] == 'o' && !SkipsLetters(w)
    ensures KeywordType(w, follower) != Identifier ==>
              w in Spellings && Spellings[w] == KeywordType(w, follower)
  {
    if KeywordType(w, follower) != Identifier {
      assert w == "or";
      RecognisedO(w, follower);
    }
  }

  lemma AcceptsP(w: seq<char>, follower: char)
    requires NoNul(w) && |w| > 0 && w[0] == 'p' && !SkipsLetters(w)
    ensures KeywordType(w, follower) != Identifier ==>
              w in Spellings && Spellings[w] == KeywordType(w, follower)
  {
    if KeywordType(w, follower) != Identifier {
      assert w == "pass" || w == "print" || w == "print_err";
      RecognisedP(w, follower);
    }
  }

  lemma AcceptsR(w: seq<char>, follower: char)
    requires NoNul(w) && |w| > 0 && w[0] == 'r' && !SkipsLetters(w)
    ensures KeywordType(w, follower) != Identifier ==>
              w in Spellings && Spellings[w] == KeywordType(w, follower)
  {
    if KeywordType(w, follower) != Identifier {
      assert w == "recipe" || w == "return" || w == "ref";
      RecognisedR(w, follower);
    }
  }

  lemma AcceptsS(w: seq<char>, follower: char)
    requires NoNul(w) && |w| > 0 && w[0] == 's' && !SkipsLetters(w)
    ensures KeywordType(w, follower) != Identifier ==>
              w in Spellings && Spellings[w] == KeywordType(w, follower)
  {
    if KeywordType(w, follower) != Identifier {
      assert w == "sbyte" || w == "str";
      RecognisedS(w, follower);
    }
  }

  lemma AcceptsT(w: seq<char>, follower: char)
    requires NoNul(w) && |w| > 0 && w[0] == 't' && !SkipsLetters(w)
    ensures KeywordType(w, follower) != Identifier ==>
              w in Spellings && Spellings[w] == KeywordType(w, follower)
  {
    if KeywordType(w, follower) != Identifier {
      assert w == "true";
      RecognisedT(w, follower);
    }
  }

  lemma AcceptsU(w: seq<char>, follower: char)
    requires NoNul(w) && |w| > 0 && w[0] == 'u' && !SkipsLetters(w)
    ensures KeywordType(w, follower) != Identifier ==>
              w in Spellings && Spellings[w] == KeywordType(w, follower)
  {
    if KeywordType(w, follower) != Identifier {
      assert w == "uint";
      RecognisedU(w, follower);
    }
  }

  lemma AcceptsW(w: seq<char>, follower: char)
    requires NoNul(w) && |w| > 0 && w[0] == 'w' && !SkipsLetters(w)
    ensures KeywordType(w, follower) != Identifier ==>
              w in Spellings && Spellings[w] == KeywordType(w, follower)
  {
    if KeywordType(w, follower) != Identifier {
      assert w == "while";
      RecognisedW(w, follower);
    }
  }

  /** Away from those lexemes the trie is the exact lookup it is meant
      to be. */
  lemma KeywordTypeIsLookup(w: seq<char>, follower: char)
    requires NoNul(w) && !SkipsLetters(w)
    ensures KeywordType(w, follower) == KeywordOf(w)
  {
    TrieSound(w, follower);
    if w in Spellings {
      SpellingsRecognised(w, follower);
    }
  }

  /** The self-comparison in the `c` branch lets `cabst` through as the
      keyword `const`. */
  lemma ConstSpelledWrong()
    ensures KeywordType("cabst", ' ') == KwConst
    ensures KeywordOf("cabst") == Identifier
  {
  }
}
