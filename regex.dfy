/** The fragment of JavaScript regular expressions that the character-class
    dictionaries use: alternations of single-character sets. Every alternative
    consumes exactly one character, so `RegExp.prototype.test` succeeds exactly
    when some position of the input holds a character the pattern matches. */
module Regex {
  import opened CharClasses

  /** One item inside a bracket expression, or a bare class escape. */
  datatype ClassItem =
    | Range(lo: char, hi: char)   // `a-z`, or a single character when lo == hi
    | Digit                       // `\d`
    | NonDigit                    // `\D`
    | WordChar                    // `\w`
    | NonWordChar                 // `\W`
    | Whitespace                  // `\s`
    | NonWhitespace               // `\S`

  /** A bracket expression `[...]` or `[^...]`; a bare escape such as `\D`
      is the one-item set `[\D]`. */
  datatype CharSet = CharSet(negated: bool, items: seq<ClassItem>)

  /** `a|b|...` where every branch is a character set. */
  datatype Pattern = Alternation(branches: seq<CharSet>)

  predicate ItemMatches(item: ClassItem, c: char) {
    match item
    case Range(lo, hi) => lo <= c <= hi
    case Digit => IsDigit(c)
    case NonDigit => !IsDigit(c)
    case WordChar => IsWordChar(c)
    case NonWordChar => !IsWordChar(c)
    case Whitespace => IsWhitespace(c)
    case NonWhitespace => !IsWhitespace(c)
  }

  predicate SetMatches(cs: CharSet, c: char) {
    (exists k :: 0 <= k < |cs.items| && ItemMatches(cs.items[k], c)) != cs.negated
  }

  predicate MatchesChar(p: Pattern, c: char) {
    exists b :: 0 <= b < |p.branches| && SetMatches(p.branches[b], c)
  }

  /** `p.test(s)`: try every start position from left to right. */
  function Test(p: Pattern, s: string): bool {
    if s == [] then false else MatchesChar(p, s[0]) || Test(p, s[1..])
  }

  /** The scan finds a match exactly when some character of the input matches. */
  lemma {:induction false} TestIffSomeChar(p: Pattern, s: string)
    ensures Test(p, s) <==> exists i :: 0 <= i < |s| && MatchesChar(p, s[i])
  {
    if s != [] {
      TestIffSomeChar(p, s[1..]);
      if Test(p, s[1..]) {
        var i :| 0 <= i < |s[1..]| && MatchesChar(p, s[1..][i]);
        assert MatchesChar(p, s[i + 1]);
      }
      if exists i :: 0 <= i < |s| && MatchesChar(p, s[i]) {
        var i :| 0 <= i < |s| && MatchesChar(p, s[i]);
        if i > 0 {
          assert s[1..][i - 1] == s[i];
        }
      }
    }
  }
}
