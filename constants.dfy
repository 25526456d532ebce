/** The legacy rejection table `kRegexDictionary` of the older hook. It
    differs from the current one: `symbol` is the same pattern as
    `alphabet-numeric`, and the two symbol pairs do not reject whitespace. */
module LegacyConstants {
  import opened CharClasses
  import opened Regex
  import opened OtpTypes
  import Constant

  function LegacyDictionary(t: InputType): Pattern
    requires t.IsStandard()
  {
    match t
    case Alphabet =>           // /[^A-Za-z]/
      Alternation([CharSet(true, Constant.AsciiLetters)])
    case AlphabetNumeric =>    // /[\W_]/
      Alternation([CharSet(false, [NonWordChar, Range('_', '_')])])
    case AlphabetSymbol =>     // /\d/
      Alternation([CharSet(false, [Digit])])
    case Numeric =>            // /\D/
      Alternation([CharSet(false, [NonDigit])])
    case NumericSymbol =>      // /[A-Za-z]/
      Alternation([CharSet(false, Constant.AsciiLetters)])
    case Symbol =>             // /[\W_]/
      Alternation([CharSet(false, [NonWordChar, Range('_', '_')])])
  }

  /** Reference definition of the characters each legacy type accepts. */
  predicate LegacyAdmits(t: InputType, c: char)
    requires t.IsStandard()
  {
    match t
    case Numeric => IsDigit(c)
    case Alphabet => IsAsciiLetter(c)
    case AlphabetNumeric => IsAsciiLetter(c) || IsDigit(c)
    case Symbol => IsAsciiLetter(c) || IsDigit(c)
    case AlphabetSymbol => !IsDigit(c)
    case NumericSymbol => !IsAsciiLetter(c)
  }

  /** Each legacy pattern matches a character exactly when its type does not admit it. */
  lemma LegacyDictionaryMeaning(t: InputType, c: char)
    requires t.IsStandard()
    ensures MatchesChar(LegacyDictionary(t), c) <==> !LegacyAdmits(t, c)
  {
    var p := LegacyDictionary(t);
    match t
    case Alphabet =>
      assert SetMatches(p.branches[0], c) <==> !IsAsciiLetter(c) by {
        assert ItemMatches(Constant.AsciiLetters[0], c) || ItemMatches(Constant.AsciiLetters[1], c) <==> IsAsciiLetter(c);
      }
    case AlphabetNumeric =>
      assert SetMatches(p.branches[0], c) <==> !(IsAsciiLetter(c) || IsDigit(c)) by {
        assert ItemMatches(p.branches[0].items[0], c) || ItemMatches(p.branches[0].items[1], c)
          <==> !(IsAsciiLetter(c) || IsDigit(c));
      }
    case Symbol =>
      assert SetMatches(p.branches[0], c) <==> !(IsAsciiLetter(c) || IsDigit(c)) by {
        assert ItemMatches(p.branches[0].items[0], c) || ItemMatches(p.branches[0].items[1], c)
          <==> !(IsAsciiLetter(c) || IsDigit(c));
      }
    case AlphabetSymbol =>
      assert SetMatches(p.branches[0], c) <==> IsDigit(c) by {
        assert ItemMatches(p.branches[0].items[0], c) <==> IsDigit(c);
      }
    case Numeric =>
      assert SetMatches(p.branches[0], c) <==> !IsDigit(c) by {
        assert ItemMatches(p.branches[0].items[0], c) <==> !IsDigit(c);
      }
    case NumericSymbol =>
      assert SetMatches(p.branches[0], c) <==> IsAsciiLetter(c) by {
        assert ItemMatches(Constant.AsciiLetters[0], c) || ItemMatches(Constant.AsciiLetters[1], c) <==> IsAsciiLetter(c);
      }
  }

  /** A legacy pattern finds a match in a string exactly when some character
      of it is not admitted. */
  lemma LegacyDictionaryTest(t: InputType, s: string)
    requires t.IsStandard()
    ensures Test(LegacyDictionary(t), s) <==> exists i :: 0 <= i < |s| && !LegacyAdmits(t, s[i])
  {
    TestIffSomeChar(LegacyDictionary(t), s);
    forall i | 0 <= i < |s| {
      LegacyDictionaryMeaning(t, s[i]);
    }
  }

  /** `symbol` is literally the `alphabet-numeric` pattern, so it accepts
      exactly the strings of ASCII letters and digits. */
  lemma SymbolIsAlphabetNumeric(s: string)
    ensures LegacyDictionary(Symbol) == LegacyDictionary(AlphabetNumeric)
    ensures !Test(LegacyDictionary(Symbol), s) <==>
              forall i :: 0 <= i < |s| ==> IsAsciiLetter(s[i]) || IsDigit(s[i])
  {
    LegacyDictionaryTest(Symbol, s);
  }

  /** Where the two tables part: whitespace passes the legacy symbol pairs but
      not the current ones, and a symbol such as `_` passes the current
      `symbol` but not the legacy one. */
  lemma TablesDiverge()
    ensures !Test(LegacyDictionary(AlphabetSymbol), " ") && Test(Constant.Dictionary(AlphabetSymbol), " ")
    ensures !Test(LegacyDictionary(NumericSymbol), " ") && Test(Constant.Dictionary(NumericSymbol), " ")
    ensures Test(LegacyDictionary(Symbol), "_") && !Test(Constant.Dictionary(Symbol), "_")
  {
    LegacyDictionaryTest(AlphabetSymbol, " ");
    Constant.DictionaryTest(AlphabetSymbol, " ");
    LegacyDictionaryTest(NumericSymbol, " ");
    Constant.DictionaryTest(NumericSymbol, " ");
    LegacyDictionaryTest(Symbol, "_");
    Constant.DictionaryTest(Symbol, "_");
  }
}
