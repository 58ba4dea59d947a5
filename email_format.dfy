/** The e-mail check of both account schemas: the regular expression
    `/\S+@\S+\.\S+/` tested without anchors, so it succeeds when the pattern
    occurs anywhere in the string. */
module EmailFormat {

  /** What `\s` matches in a JavaScript regular expression: the ECMAScript
      WhiteSpace and LineTerminator code points. `\S` is its complement. */
  predicate IsWhitespace(c: char) {
    var n := c as int;
    || n == 0x09 || n == 0x0A || n == 0x0B || n == 0x0C || n == 0x0D || n == 0x20
    || n == 0xA0 || n == 0x1680 || (0x2000 <= n <= 0x200A)
    || n == 0x2028 || n == 0x2029 || n == 0x202F || n == 0x205F || n == 0x3000 || n == 0xFEFF
  }

  predicate NoWhitespace(s: string) {
    forall i :: 0 <= i < |s| ==> !IsWhitespace(s[i])
  }

  /** `s[lo..hi]` is a match of the pattern, with the `@` at `at` and the `.`
      at `dot`: three non-empty runs of `\S` around them. */
  ghost predicate MatchesRegexAt(s: string, lo: int, at: int, dot: int, hi: int) {
    && 0 <= lo < at && at + 1 < dot && dot + 1 < hi <= |s|
    && s[at] == '@' && s[dot] == '.'
    && NoWhitespace(s[lo..at]) && NoWhitespace(s[at + 1..dot]) && NoWhitespace(s[dot + 1..hi])
  }

  /** The regular expression finds a match somewhere in `s`. */
  ghost predicate MatchesRegex(s: string) {
    exists lo, at, dot, hi :: MatchesRegexAt(s, lo, at, dot, hi)
  }

  /** The validator as a decision procedure: since the match is unanchored,
      the first and last runs may shrink to the single character next to the
      `@` and after the `.`; only the run between them must be whole. */
  predicate IsValidEmail(s: string)
    ensures IsValidEmail(s) ==> 5 <= |s| && '@' in s && '.' in s
  {
    exists at, dot | 0 < at < |s| && at + 1 < dot < |s| - 1 :: ShortestMatchAt(s, at, dot)
  }

  /** The shortest match with its `@` at `at` and its `.` at `dot`. */
  predicate ShortestMatchAt(s: string, at: int, dot: int)
    requires 0 < at && at + 1 < dot < |s| - 1
  {
    && s[at] == '@' && s[dot] == '.'
    && !IsWhitespace(s[at - 1]) && !IsWhitespace(s[dot + 1])
    && NoWhitespace(s[at + 1..dot])
  }

  /** The decision procedure accepts exactly the strings the regular
      expression finds a match in. */
  lemma ValidEmailIffRegexMatches(s: string)
    ensures IsValidEmail(s) <==> MatchesRegex(s)
  {
    if IsValidEmail(s) {
      var at, dot :| 0 < at < |s| && at + 1 < dot < |s| - 1 && ShortestMatchAt(s, at, dot);
      assert s[at - 1..at] == [s[at - 1]];
      assert s[dot + 1..dot + 2] == [s[dot + 1]];
      assert MatchesRegexAt(s, at - 1, at, dot, dot + 2);
    }
    if MatchesRegex(s) {
      var lo, at, dot, hi :| MatchesRegexAt(s, lo, at, dot, hi);
      assert s[lo..at][at - 1 - lo] == s[at - 1];
      assert s[dot + 1..hi][0] == s[dot + 1];
      assert ShortestMatchAt(s, at, dot);
    }
  }

  /** Strings the validator accepts. */
  lemma AcceptedExamples()
    ensures IsValidEmail("a@x.com")
    ensures IsValidEmail("not an e-mail: a@b.c!")   // unanchored: any occurrence will do
    ensures IsValidEmail("a@b@c.d")                  // `\S` also matches `@` and `.`
  {
    var s := "not an e-mail: a@b.c!";
    assert s[17..18] == "b" && ShortestMatchAt(s, 16, 18);
    assert "a@b@c.d"[4..5] == "c" && ShortestMatchAt("a@b@c.d", 3, 5);
    assert "a@x.com"[2..3] == "x" && ShortestMatchAt("a@x.com", 1, 3);
  }

  /** Strings the validator refuses. */
  lemma RefusedExamples()
    ensures !IsValidEmail("a@b")
    ensures !IsValidEmail("@b.c")
    ensures !IsValidEmail("a@ b.c")
  {
    var t := "a@ b.c";
    forall at, dot | 0 < at < |t| && at + 1 < dot < |t| - 1
      ensures !ShortestMatchAt(t, at, dot)
    {
      if t[at] == '@' && t[dot] == '.' {
        assert at == 1 && dot == 4;
        assert t[at + 1..dot][0] == ' ';
      }
    }
  }
}
