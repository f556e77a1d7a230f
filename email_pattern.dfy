/**
 * The address pattern `/^[^\s@]+@[^\s@]+\.[^\s@]+$/` that both the server
 * (route.ts) and the browser form (page.tsx) test the trimmed email against.
 */
module EmailPattern {
  import opened Text

  /** A character of the class `[^\s@]`. */
  predicate IsAddressChar(c: char) {
    !IsWhitespace(c) && c != '@'
  }

  /**
   * One way the regular expression can match `s`: the literal `@` is at index
   * `at`, the literal `.` at index `dot`, the three runs of `[^\s@]+` around them
   * are non-empty, and every other character belongs to `[^\s@]` (the `.` does).
   */
  ghost predicate MatchesAt(s: string, at: int, dot: int) {
    && 0 < at && at + 1 < dot && dot + 1 < |s|
    && s[at] == '@' && s[dot] == '.'
    && forall k :: 0 <= k < |s| && k != at ==> IsAddressChar(s[k])
  }

  /** Reference meaning of `emailRegex.test(s)`: some split of `s` matches. */
  ghost predicate MatchesEmailPattern(s: string) {
    exists at, dot :: MatchesAt(s, at, dot)
  }

  /** Index of the first `c` in `s`, or `|s|` when there is none. */
  function IndexOf(s: string, c: char): (i: nat)
    ensures i <= |s|
    ensures forall k :: 0 <= k < i ==> s[k] != c
    ensures i < |s| ==> s[i] == c
  {
    if s == [] || s[0] == c then 0 else 1 + IndexOf(s[1..], c)
  }

  /**
   * The pattern read structurally: no whitespace anywhere, a non-empty local
   * part before the first `@`, no second `@`, and a `.` in the domain that is
   * neither its first nor its last character.
   */
  function TestEmail(s: string): (ok: bool)
    ensures ok <==> MatchesEmailPattern(s)
  {
    var at := IndexOf(s, '@');
    var ok := && 0 < at && at + 4 <= |s|
              && (forall k :: 0 <= k < |s| ==> !IsWhitespace(s[k]))
              && '@' !in s[at + 1..]
              && '.' in s[at + 2..|s| - 1];
    assert ok ==> MatchesEmailPattern(s) by {
      if ok {
        var j :| 0 <= j < |s| - 1 - (at + 2) && s[at + 2..|s| - 1][j] == '.';
        forall k | 0 <= k < |s| && k != at ensures IsAddressChar(s[k]) {
          if k > at { assert s[at + 1..][k - at - 1] == s[k]; }
        }
        assert MatchesAt(s, at, at + 2 + j);
      }
    }
    assert MatchesEmailPattern(s) ==> ok by {
      if MatchesEmailPattern(s) {
        var at', dot :| MatchesAt(s, at', dot);
        assert at == at';
        assert s[at + 2..|s| - 1][dot - at - 2] == '.';
      }
    }
    ok
  }
}
