/**
 * The JavaScript string operations the contact form relies on: the whitespace
 * class shared by `String.prototype.trim` and the regular-expression escape `\s`,
 * `trim`, `Array.prototype.join`, `split(sep)[0]` and the character-class
 * `replace` used by the sanitiser.
 */
module Text {

  /**
   * ECMAScript's WhiteSpace and LineTerminator code points: tab, line feed,
   * vertical tab, form feed, carriage return, space, no-break space, ogham space
   * mark, the spaces U+2000..U+200A, line and paragraph separators, narrow
   * no-break space, medium mathematical space, ideographic space and the byte
   * order mark. `trim` strips exactly these and `\s` matches exactly these.
   */
  predicate IsWhitespace(c: char) {
    || c == '\t' || c == '\n' || c == '\U{000B}' || c == '\U{000C}' || c == '\r'
    || c == ' ' || c == '\U{00A0}' || c == '\U{1680}'
    || ('\U{2000}' <= c <= '\U{200A}')
    || c == '\U{2028}' || c == '\U{2029}' || c == '\U{202F}' || c == '\U{205F}'
    || c == '\U{3000}' || c == '\U{FEFF}'
  }

  ghost predicate AllWhitespace(s: string) {
    forall k :: 0 <= k < |s| ==> IsWhitespace(s[k])
  }

  /** Neither the first nor the last character is whitespace (vacuous for ""). */
  predicate HasNoOuterWhitespace(s: string) {
    s == [] || (!IsWhitespace(s[0]) && !IsWhitespace(s[|s| - 1]))
  }

  /**
   * `t` sits at offset `i` of `s`, and everything of `s` before and after it is
   * whitespace.
   */
  ghost predicate SlicedAt(t: string, s: string, i: int) {
    && 0 <= i && i + |t| <= |s|
    && (forall k :: 0 <= k < |t| ==> t[k] == s[i + k])
    && (forall k :: 0 <= k < i ==> IsWhitespace(s[k]))
    && (forall k :: i + |t| <= k < |s| ==> IsWhitespace(s[k]))
  }

  /**
   * Reference meaning of `t == s.trim()`: `t` is a slice of `s` with no outer
   * whitespace, and everything of `s` around the slice is whitespace.
   */
  ghost predicate IsTrimmingOf(t: string, s: string) {
    HasNoOuterWhitespace(t) && exists i :: SlicedAt(t, s, i)
  }

  lemma {:induction false} SlicedAtIsUnique(s: string, t1: string, i1: int, t2: string, i2: int)
    requires HasNoOuterWhitespace(t1) && SlicedAt(t1, s, i1)
    requires HasNoOuterWhitespace(t2) && SlicedAt(t2, s, i2)
    ensures t1 == t2
  {
    if t1 != [] && t2 != [] {
      // Each starts on the first non-whitespace character of s and ends on the last.
      assert s[i1] == t1[0] && s[i2] == t2[0];
      assert i1 == i2;
      assert s[i1 + |t1| - 1] == t1[|t1| - 1] && s[i2 + |t2| - 1] == t2[|t2| - 1];
      assert |t1| == |t2|;
    }
  }

  /** At most one string is the trimming of a given string. */
  lemma TrimmingIsUnique(s: string, t1: string, t2: string)
    requires IsTrimmingOf(t1, s) && IsTrimmingOf(t2, s)
    ensures t1 == t2
  {
    var i1 :| SlicedAt(t1, s, i1);
    var i2 :| SlicedAt(t2, s, i2);
    SlicedAtIsUnique(s, t1, i1, t2, i2);
  }

  /** Index of the first character at or after `from` that is not whitespace, or `|s|`. */
  function SkipWhitespace(s: string, from: nat): (i: nat)
    requires from <= |s|
    ensures from <= i <= |s|
    ensures forall k :: from <= k < i ==> IsWhitespace(s[k])
    ensures i < |s| ==> !IsWhitespace(s[i])
    decreases |s| - from
  {
    if from < |s| && IsWhitespace(s[from]) then SkipWhitespace(s, from + 1) else from
  }

  /**
   * Scanning back from `end`, the index just after the last character before it
   * that is not whitespace, but no lower than `floor`.
   */
  function SkipWhitespaceBack(s: string, floor: nat, end: nat): (j: nat)
    requires floor <= end <= |s|
    ensures floor <= j <= end
    ensures forall k :: j <= k < end ==> IsWhitespace(s[k])
    ensures j > floor ==> !IsWhitespace(s[j - 1])
    decreases end
  {
    if end > floor && IsWhitespace(s[end - 1]) then SkipWhitespaceBack(s, floor, end - 1) else end
  }

  /** `s.trim()`: the part of `s` between its leading and its trailing whitespace. */
  function Trim(s: string): (r: string)
    ensures IsTrimmingOf(r, s)
  {
    var i := SkipWhitespace(s, 0);
    var j := SkipWhitespaceBack(s, i, |s|);
    assert SlicedAt(s[i..j], s, i);
    s[i..j]
  }

  /** Trimming only removes characters: what is left is a part of the input. */
  lemma TrimTakesFromInput(s: string)
    ensures |Trim(s)| <= |s|
    ensures forall c :: c in Trim(s) ==> c in s
  {
    var r := Trim(s);
    var i :| SlicedAt(r, s, i);
    forall c | c in r ensures c in s {
      var k :| 0 <= k < |r| && r[k] == c;
      assert s[i + k] == c;
    }
  }

  /** A string without outer whitespace is its own trimming; so `trim` is idempotent. */
  lemma TrimKeepsTrimmed(s: string)
    requires HasNoOuterWhitespace(s)
    ensures Trim(s) == s
  {
    assert SlicedAt(s, s, 0);
    TrimmingIsUnique(s, Trim(s), s);
  }

  lemma TrimIsIdempotent(s: string)
    ensures Trim(Trim(s)) == Trim(s)
  {
    TrimKeepsTrimmed(Trim(s));
  }

  /** The trimming is empty exactly when the string is whitespace only. */
  lemma TrimEmptyIffAllWhitespace(s: string)
    ensures Trim(s) == [] <==> AllWhitespace(s)
  {
    if AllWhitespace(s) {
      assert SlicedAt([], s, 0);
      TrimmingIsUnique(s, Trim(s), []);
    } else {
      var t := Trim(s);
      var i :| SlicedAt(t, s, i);
      var k :| 0 <= k < |s| && !IsWhitespace(s[k]);
    }
  }

  /** `s.replace(/[<>]/g, '')`: every `<` and `>` removed, the rest kept in order. */
  function StripAngleBrackets(s: string): (r: string)
    ensures '<' !in r && '>' !in r
    ensures forall c :: c in r <==> c in s && c != '<' && c != '>'
    ensures '<' !in s && '>' !in s ==> r == s
  {
    if s == [] then []
    else
      var rest := StripAngleBrackets(s[1..]);
      assert s == [s[0]] + s[1..];
      if s[0] == '<' || s[0] == '>' then rest else [s[0]] + rest
  }

  /** Bracket removal works piece by piece, so the kept characters stay in their order. */
  lemma {:induction false} StripAngleBracketsDistributes(a: string, b: string)
    ensures StripAngleBrackets(a + b) == StripAngleBrackets(a) + StripAngleBrackets(b)
  {
    if a == [] {
      assert a + b == b;
    } else {
      assert (a + b)[0] == a[0];
      assert (a + b)[1..] == a[1..] + b;
      StripAngleBracketsDistributes(a[1..], b);
    }
  }

  /** A single character is dropped when it is a bracket and kept otherwise. */
  lemma StripAngleBracketsOfChar(c: char)
    ensures StripAngleBrackets([c]) == if c == '<' || c == '>' then [] else [c]
  {
    assert [c][1..] == [];
  }

  /** Markup around bracket-free text: only the brackets go, the tag and the slash stay. */
  lemma StripTagPair(tag: string, text: string)
    requires '<' !in tag && '>' !in tag && '<' !in text && '>' !in text
    ensures StripAngleBrackets(("<" + tag + ">") + text + ("</" + tag + ">")) == tag + text + ("/" + tag)
  {
    var open, close := "<" + tag + ">", "</" + tag + ">";
    assert StripAngleBrackets(open) == tag by {
      StripAngleBracketsOfChar('<');
      StripAngleBracketsOfChar('>');
      StripAngleBracketsDistributes("<", tag);
      StripAngleBracketsDistributes("<" + tag, ">");
    }
    assert StripAngleBrackets(close) == "/" + tag by {
      StripAngleBracketsOfChar('<');
      StripAngleBracketsOfChar('/');
      StripAngleBracketsOfChar('>');
      StripAngleBracketsDistributes("<", "/");
      StripAngleBracketsDistributes("</", tag);
      StripAngleBracketsDistributes("</" + tag, ">");
    }
    StripAngleBracketsDistributes(open, text);
    StripAngleBracketsDistributes(open + text, close);
  }

  /** `s.split(sep)[0]`: the text before the first `sep`, or all of `s` if there is none. */
  function FirstSegment(s: string, sep: char): (r: string)
    ensures |r| <= |s| && r == s[..|r|]
    ensures sep !in r
    ensures |r| < |s| ==> s[|r|] == sep
  {
    if s == [] || s[0] == sep then []
    else
      var rest := FirstSegment(s[1..], sep);
      assert [s[0]] + rest == s[..1 + |rest|];
      [s[0]] + rest
  }

  /** `parts.join(sep)`. */
  function Join(parts: seq<string>, sep: string): string {
    if parts == [] then ""
    else if |parts| == 1 then parts[0]
    else parts[0] + sep + Join(parts[1..], sep)
  }
}
