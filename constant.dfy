/** The current rejection table `kRegexDictionary`: for each standard input
    type, a pattern that matches a character the type does NOT accept. */
module Constant {
  import opened CharClasses
  import opened Regex
  import opened OtpTypes

  const AsciiLetters: seq<ClassItem> := [Range('A', 'Z'), Range('a', 'z')]

  function Dictionary(t: InputType): Pattern
    requires t.IsStandard()
  {
    match t
    case Alphabet =>           // /[^A-Za-z]/
      Alternation([CharSet(true, AsciiLetters)])
    case AlphabetNumeric =>    // /[\W_]/
      Alternation([CharSet(false, [NonWordChar, Range('_', '_')])])
    case AlphabetSymbol =>     // /[\d]|[^\S]/
      Alternation([CharSet(false, [Digit]), CharSet(true, [NonWhitespace])])
    case Numeric =>            // /\D/
      Alternation([CharSet(false, [NonDigit])])
    case NumericSymbol =>      // /[A-Za-z]|[^\S]/
      Alternation([CharSet(false, AsciiLetters), CharSet(true, [NonWhitespace])])
    case Symbol =>             // /[^\W_]|[^\S]/
      Alternation([CharSet(true, [NonWordChar, Range('_', '_')]), CharSet(true, [NonWhitespace])])
  }

  /** A symbol: neither an ASCII letter, nor a digit, nor whitespace. */
  predicate IsSymbol(c: char) {
    !IsAsciiLetter(c) && !IsDigit(c) && !IsWhitespace(c)
  }

  /** Reference definition of the characters each standard type accepts. */
  predicate Admits(t: InputType, c: char)
    requires t.IsStandard()
  {
    match t
    case Numeric => IsDigit(c)
    case Alphabet => IsAsciiLetter(c)
    case Symbol => IsSymbol(c)
    case AlphabetNumeric => IsAsciiLetter(c) || IsDigit(c)
    case AlphabetSymbol => !IsDigit(c) && !IsWhitespace(c)
    case NumericSymbol => !IsAsciiLetter(c) && !IsWhitespace(c)
  }

  /** Each dictionary pattern matches a character exactly when its type does not admit it. */
  lemma DictionaryMeaning(t: InputType, c: char)
    requires t.IsStandard()
    ensures MatchesChar(Dictionary(t), c) <==> !Admits(t, c)
  {
    var p := Dictionary(t);
    match t
    case Alphabet =>
      assert SetMatches(p.branches[0], c) <==> !IsAsciiLetter(c) by {
        assert ItemMatches(AsciiLetters[0], c) || ItemMatches(AsciiLetters[1], c) <==> IsAsciiLetter(c);
      }
    case AlphabetNumeric =>
      assert SetMatches(p.branches[0], c) <==> !(IsAsciiLetter(c) || IsDigit(c)) by {
        assert ItemMatches(p.branches[0].items[0], c) || ItemMatches(p.branches[0].items[1], c)
          <==> !(IsAsciiLetter(c) || IsDigit(c));
      }
    case AlphabetSymbol =>
      assert SetMatches(p.branches[0], c) <==> IsDigit(c) by {
        assert ItemMatches(p.branches[0].items[0], c) <==> IsDigit(c);
      }
      assert SetMatches(p.branches[1], c) <==> IsWhitespace(c) by {
        assert ItemMatches(p.branches[1].items[0], c) <==> !IsWhitespace(c);
      }
    case Numeric =>
      assert SetMatches(p.branches[0], c) <==> !IsDigit(c) by {
        assert ItemMatches(p.branches[0].items[0], c) <==> !IsDigit(c);
      }
    case NumericSymbol =>
      assert SetMatches(p.branches[0], c) <==> IsAsciiLetter(c) by {
        assert ItemMatches(AsciiLetters[0], c) || ItemMatches(AsciiLetters[1], c) <==> IsAsciiLetter(c);
      }
      assert SetMatches(p.branches[1], c) <==> IsWhitespace(c) by {
        assert ItemMatches(p.branches[1].items[0], c) <==> !IsWhitespace(c);
      }
    case Symbol =>
      assert SetMatches(p.branches[0], c) <==> IsAsciiLetter(c) || IsDigit(c) by {
        assert ItemMatches(p.branches[0].items[0], c) || ItemMatches(p.branches[0].items[1], c)
          <==> !(IsAsciiLetter(c) || IsDigit(c));
      }
      assert SetMatches(p.branches[1], c) <==> IsWhitespace(c) by {
        assert ItemMatches(p.branches[1].items[0], c) <==> !IsWhitespace(c);
      }
  }

  /** A dictionary pattern finds a match in a string exactly when some
      character of it is not admitted. */
  lemma DictionaryTest(t: InputType, s: string)
    requires t.IsStandard()
    ensures Test(Dictionary(t), s) <==> exists i :: 0 <= i < |s| && !Admits(t, s[i])
  {
    TestIffSomeChar(Dictionary(t), s);
    forall i | 0 <= i < |s| {
      DictionaryMeaning(t, s[i]);
    }
  }
}
