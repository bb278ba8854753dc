/**
 * The string operations of Python that the calendar core relies on:
 * str.isspace, str.strip, str.upper, "\n".join and str.split("\n").
 * Strings are sequences of Unicode code points.
 */
module Text {

  /** Python's str.isspace on one code point: the characters that str.strip() removes. */
  predicate IsSpace(c: char) {
    var n := c as int;
    (0x09 <= n <= 0x0D) || (0x1C <= n <= 0x20) || n == 0x85 || n == 0xA0 || n == 0x1680
    || (0x2000 <= n <= 0x200A) || n == 0x2028 || n == 0x2029 || n == 0x202F || n == 0x205F
    || n == 0x3000
  }

  predicate AllSpace(s: string) {
    forall k :: 0 <= k < |s| ==> IsSpace(s[k])
  }

  /** Number of whitespace characters at the front of s. */
  function LeadingSpaces(s: string): (i: nat)
    ensures i <= |s|
    ensures AllSpace(s[..i])
    ensures i == |s| || !IsSpace(s[i])
  {
    if |s| == 0 || !IsSpace(s[0]) then 0 else 1 + LeadingSpaces(s[1..])
  }

  /** Position where the run of whitespace at the back of s begins. */
  function TrailingStart(s: string): (j: nat)
    ensures j <= |s|
    ensures AllSpace(s[j..])
    ensures j == 0 || !IsSpace(s[j - 1])
  {
    if |s| == 0 || !IsSpace(s[|s| - 1]) then |s| else TrailingStart(s[..|s| - 1])
  }

  /**
   * Python's str.strip() without arguments: s with its leading and trailing
   * whitespace removed. The result is empty exactly when s is all whitespace;
   * otherwise it starts and ends with a non-whitespace character, and s is the
   * result surrounded by whitespace only.
   */
  function Strip(s: string): (r: string)
    ensures r == [] <==> AllSpace(s)
    ensures r != [] ==> !IsSpace(r[0]) && !IsSpace(r[|r| - 1])
    ensures var i := LeadingSpaces(s);
      i + |r| <= |s| && s[i..i + |r|] == r && AllSpace(s[..i]) && AllSpace(s[i + |r|..])
  {
    var t := s[LeadingSpaces(s)..];
    var j := TrailingStart(t);
    assert t[j..] == s[LeadingSpaces(s) + j..];
    assert j == 0 ==> LeadingSpaces(s) == |s| && s[..|s|] == s;
    t[..j]
  }

  /** Stripping is idempotent: a stripped string has nothing left to strip. */
  lemma StripIdempotent(s: string)
    ensures Strip(Strip(s)) == Strip(s)
  {
    var r := Strip(s);
    if r != [] {
      assert LeadingSpaces(r) == 0;
      assert TrailingStart(r) == |r|;
    }
  }

  /**
   * Python's str.upper() as far as it can yield ASCII text: the ASCII letters,
   * dotless i (U+0131, upper case 'I') and long s (U+017F, upper case 'S').
   */
  function UpperChar(c: char): (u: char)
    ensures !('a' <= u <= 'z')
    ensures 'a' <= c <= 'z' || c as int == 0x131 || c as int == 0x17F ==> 'A' <= u <= 'Z'
    ensures !('a' <= c <= 'z') && c as int != 0x131 && c as int != 0x17F ==> u == c
  {
    if 'a' <= c <= 'z' then (c as int - 32) as char
    else if c as int == 0x131 then 'I'
    else if c as int == 0x17F then 'S'
    else c
  }

  function Upper(s: string): string
  {
    seq(|s|, k requires 0 <= k < |s| => UpperChar(s[k]))
  }

  /**
   * Upper-casing keeps the length and leaves no ASCII lower-case letter;
   * each ASCII lower-case letter becomes its capital, and every character
   * without an upper case of its own (capitals, digits, whitespace) stays.
   */
  lemma UpperCharacters(s: string)
    ensures |Upper(s)| == |s|
    ensures forall k :: 0 <= k < |s| ==> !('a' <= Upper(s)[k] <= 'z')
    ensures forall k :: 0 <= k < |s| && 'a' <= s[k] <= 'z' ==> Upper(s)[k] as int == s[k] as int - 32
    ensures forall k :: 0 <= k < |s| && !('a' <= s[k] <= 'z') && s[k] as int != 0x131 && s[k] as int != 0x17F ==>
              Upper(s)[k] == s[k]
  {
  }

  /** Upper-casing twice is upper-casing once. */
  lemma UpperIdempotent(s: string)
    ensures Upper(Upper(s)) == Upper(s)
  {
    var u := Upper(s);
    forall k | 0 <= k < |u|
      ensures Upper(u)[k] == u[k]
    {
      assert u[k] == UpperChar(s[k]);
      assert Upper(u)[k] == UpperChar(u[k]);
    }
  }

  /** Python's "\n".join(lines). */
  function JoinLines(lines: seq<string>): (doc: string)
  {
    if |lines| == 0 then ""
    else if |lines| == 1 then lines[0]
    else lines[0] + "\n" + JoinLines(lines[1..])
  }

  /** Joining two non-empty lists of lines puts one newline between their joins. */
  lemma {:induction false} JoinAppend(a: seq<string>, b: seq<string>)
    requires |a| > 0 && |b| > 0
    ensures JoinLines(a + b) == JoinLines(a) + "\n" + JoinLines(b)
  {
    if |a| == 1 {
      assert (a + b)[1..] == b;
    } else {
      assert (a + b)[1..] == a[1..] + b;
      JoinAppend(a[1..], b);
    }
  }

  /** First position of a newline in s, or |s| when there is none. */
  function NewlineIndex(s: string): (i: nat)
    ensures i <= |s|
    ensures '\n' !in s[..i]
    ensures i < |s| ==> s[i] == '\n'
  {
    if |s| == 0 then 0
    else if s[0] == '\n' then 0
    else
      var i := 1 + NewlineIndex(s[1..]);
      assert s[..i] == [s[0]] + s[1..][..i - 1];
      i
  }

  /** Python's s.split("\n"): the pieces of s between newlines; never empty. */
  function SplitLines(s: string): (lines: seq<string>)
    ensures |lines| >= 1
    ensures NoNewlines(lines)
    decreases |s|
  {
    var i := NewlineIndex(s);
    if i == |s| then [s] else [s[..i]] + SplitLines(s[i + 1..])
  }

  predicate NoNewlines(lines: seq<string>) {
    forall k :: 0 <= k < |lines| ==> '\n' !in lines[k]
  }

  lemma NoNewlinesAppend(a: seq<string>, b: seq<string>)
    ensures NoNewlines(a + b) <==> NoNewlines(a) && NoNewlines(b)
  {
    if NoNewlines(a) && NoNewlines(b) {
      forall k | 0 <= k < |a + b|
        ensures '\n' !in (a + b)[k]
      {
        if k < |a| {
          assert (a + b)[k] == a[k];
        } else {
          assert (a + b)[k] == b[k - |a|];
        }
      }
    }
    if NoNewlines(a + b) {
      forall k | 0 <= k < |a|
        ensures '\n' !in a[k]
      {
        assert (a + b)[k] == a[k];
      }
      forall k | 0 <= k < |b|
        ensures '\n' !in b[k]
      {
        assert (a + b)[|a| + k] == b[k];
      }
    }
  }

  /** Splitting a joined document recovers its lines when no line holds a newline. */
  lemma {:induction false} SplitJoin(lines: seq<string>)
    requires |lines| > 0 && NoNewlines(lines)
    ensures SplitLines(JoinLines(lines)) == lines
  {
    if |lines| == 1 {
      assert NewlineIndex(lines[0]) == |lines[0]| by {
        assert '\n' !in lines[0];
      }
    } else {
      assert '\n' !in lines[0];
      SplitFirst(lines[0], JoinLines(lines[1..]));
      SplitJoin(lines[1..]);
    }
  }

  /** A line without newlines, a newline and the rest split into that line and the rest's pieces. */
  lemma SplitFirst(line: string, rest: string)
    requires '\n' !in line
    ensures SplitLines(line + "\n" + rest) == [line] + SplitLines(rest)
  {
    var doc := line + "\n" + rest;
    assert doc == line + ("\n" + rest);
    NewlineIndexPrefix(line, "\n" + rest);
    assert doc[..|line|] == line;
    assert doc[|line| + 1..] == rest;
  }

  /** A non-empty list of lines survives joining and splitting exactly when no line holds a newline. */
  lemma SplitJoinIff(lines: seq<string>)
    requires |lines| > 0
    ensures SplitLines(JoinLines(lines)) == lines <==> NoNewlines(lines)
  {
    if NoNewlines(lines) {
      SplitJoin(lines);
    }
  }

  lemma {:induction false} NewlineIndexPrefix(a: string, b: string)
    requires '\n' !in a && |b| > 0 && b[0] == '\n'
    ensures NewlineIndex(a + b) == |a|
  {
    if |a| > 0 {
      assert (a + b)[1..] == a[1..] + b;
      assert a[0] == (a + b)[0];
      NewlineIndexPrefix(a[1..], b);
    }
  }

  /** Joining the pieces of a split gives the text back. */
  lemma {:induction false} JoinSplit(s: string)
    ensures JoinLines(SplitLines(s)) == s
    decreases |s|
  {
    var i := NewlineIndex(s);
    if i < |s| {
      var rest := SplitLines(s[i + 1..]);
      assert SplitLines(s) == [s[..i]] + rest;
      JoinSplit(s[i + 1..]);
      assert JoinLines([s[..i]] + rest) == s[..i] + "\n" + JoinLines(rest) by {
        assert ([s[..i]] + rest)[1..] == rest;
      }
      assert s == s[..i] + "\n" + s[i + 1..];
    }
  }
}
