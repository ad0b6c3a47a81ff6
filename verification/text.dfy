/**
 * String helpers with JavaScript semantics: `String.prototype.repeat`,
 * `Array.prototype.join`, `String.prototype.trim`, and the split of a text
 * into newline-terminated lines used to read generated declarations back.
 */
module Text {

  /** `s.repeat(n)`: `n` copies of `s`, concatenated. */
  function Repeat(s: string, n: nat): (r: string)
    ensures |r| == n * |s|
    ensures forall i :: 0 <= i < |r| ==> r[i] in s
    ensures r == Concat(seq(n, _ => s))
  {
    if n == 0 then ""
    else
      assert seq(n, _ => s)[1..] == seq(n - 1, _ => s);
      s + Repeat(s, n - 1)
  }

  /** The indentation of nesting level `level`: two spaces per level. */
  function Indent(level: nat): (r: string)
    ensures |r| == 2 * level
    ensures forall i :: 0 <= i < |r| ==> r[i] == ' '
  {
    Repeat("  ", level)
  }

  /** The first index of `c` in `s`, or `|s|` when `c` does not occur. */
  function IndexOf(s: string, c: char): (i: nat)
    ensures i <= |s|
    ensures forall j :: 0 <= j < i ==> s[j] != c
    ensures i < |s| ==> s[i] == c
  {
    if s == [] then 0
    else if s[0] == c then 0
    else 1 + IndexOf(s[1..], c)
  }

  /** `IndexOf` is determined by where `c` first occurs. */
  lemma IndexOfPrefix(a: string, c: char, b: string)
    requires c !in a
    ensures IndexOf(a + [c] + b, c) == |a|
  {
    var s := a + [c] + b;
    assert forall j :: 0 <= j < |a| ==> s[j] == a[j];
    assert s[|a|] == c;
  }

  /** The last index of `c` in `s`, or `|s|` when `c` does not occur. */
  function LastIndexOf(s: string, c: char): (i: nat)
    ensures i <= |s|
    ensures i == |s| <==> c !in s
    ensures i < |s| ==> s[i] == c && forall j :: i < j < |s| ==> s[j] != c
  {
    if s == [] then 0
    else if s[|s| - 1] == c then |s| - 1
    else
      var k := LastIndexOf(s[..|s| - 1], c);
      if k == |s| - 1 then |s| else k
  }

  /** `LastIndexOf` is determined by where `c` last occurs. */
  lemma LastIndexOfSuffix(a: string, c: char, b: string)
    requires c !in b
    ensures LastIndexOf(a + [c] + b, c) == |a|
  {
    var s := a + [c] + b;
    var i := LastIndexOf(s, c);
    assert s[|a|] == c;
  }

  /** Terminates every line with a newline and concatenates them. */
  function JoinLines(lines: seq<string>): (text: string)
    ensures lines == [] <==> text == ""
    ensures text != "" ==> text[|text| - 1] == '\n'
  {
    if lines == [] then "" else lines[0] + "\n" + JoinLines(lines[1..])
  }

  /** Cuts a text into the lines its newlines terminate; a final line
      without a newline is kept as the last element. */
  function SplitLines(text: string): (lines: seq<string>)
    ensures forall i :: 0 <= i < |lines| ==> '\n' !in lines[i]
    decreases |text|
  {
    if text == "" then []
    else
      var i := IndexOf(text, '\n');
      if i == |text| then [text]
      else [text[..i]] + SplitLines(text[i + 1..])
  }

  /** No line of the sequence contains a newline. */
  predicate SingleLines(lines: seq<string>)
  {
    forall i :: 0 <= i < |lines| ==> '\n' !in lines[i]
  }

  lemma SingleLinesAppend(a: seq<string>, b: seq<string>)
    requires SingleLines(a) && SingleLines(b)
    ensures SingleLines(a + b)
  {
    forall i | 0 <= i < |a + b|
      ensures '\n' !in (a + b)[i]
    {
      if i < |a| {
        assert (a + b)[i] == a[i];
      } else {
        assert (a + b)[i] == b[i - |a|];
      }
    }
  }

  /** Splitting undoes joining, as long as no line holds a newline. */
  lemma {:induction false} SplitJoinLines(lines: seq<string>)
    requires SingleLines(lines)
    ensures SplitLines(JoinLines(lines)) == lines
  {
    if lines != [] {
      var text := JoinLines(lines);
      var tail := JoinLines(lines[1..]);
      assert text == lines[0] + ['\n'] + tail;
      IndexOfPrefix(lines[0], '\n', tail);
      assert text[..|lines[0]|] == lines[0];
      assert text[|lines[0]| + 1..] == tail;
      SplitJoinLines(lines[1..]);
    }
  }

  /** Joining undoes splitting for a text that is empty or ends with a
      newline. */
  lemma {:induction false} JoinSplitLines(text: string)
    requires text == "" || text[|text| - 1] == '\n'
    ensures JoinLines(SplitLines(text)) == text
    decreases |text|
  {
    if text != "" {
      var i := SplitLinesStep(text);
      var rest := text[i + 1..];
      JoinSplitLines(rest);
      JoinLinesCons(text[..i], SplitLines(rest));
    }
  }

  /** A text ending with a newline splits at its first newline into a line
      and a rest that again is empty or ends with a newline. */
  lemma SplitLinesStep(text: string) returns (i: nat)
    requires text != "" && text[|text| - 1] == '\n'
    ensures i < |text| && text == text[..i] + "\n" + text[i + 1..]
    ensures SplitLines(text) == [text[..i]] + SplitLines(text[i + 1..])
    ensures text[i + 1..] == "" || text[i + 1..][|text[i + 1..]| - 1] == '\n'
  {
    i := IndexOf(text, '\n');
    assert text[|text| - 1] == '\n';
    assert text == text[..i] + [text[i]] + text[i + 1..];
  }

  lemma JoinLinesCons(line: string, lines: seq<string>)
    ensures JoinLines([line] + lines) == line + "\n" + JoinLines(lines)
  {
    assert ([line] + lines)[1..] == lines;
  }

  lemma {:induction false} JoinLinesAppend(a: seq<string>, b: seq<string>)
    ensures JoinLines(a + b) == JoinLines(a) + JoinLines(b)
  {
    if a == [] {
      assert a + b == b;
    } else {
      assert (a + b)[1..] == a[1..] + b;
      JoinLinesAppend(a[1..], b);
    }
  }

  /** The number of occurrences of `c` in `s`. */
  function Count(s: string, c: char): (n: nat)
    ensures n <= |s|
    ensures n == 0 <==> c !in s
  {
    if s == [] then 0 else (if s[0] == c then 1 else 0) + Count(s[1..], c)
  }

  lemma {:induction false} CountAppend(a: string, b: string, c: char)
    ensures Count(a + b, c) == Count(a, c) + Count(b, c)
  {
    if a == [] {
      assert a + b == b;
    } else {
      assert (a + b)[1..] == a[1..] + b;
      CountAppend(a[1..], b, c);
    }
  }

  /** A joined text has exactly one newline per line. */
  lemma {:induction false} CountJoinLines(lines: seq<string>)
    requires SingleLines(lines)
    ensures Count(JoinLines(lines), '\n') == |lines|
  {
    if lines != [] {
      CountAppend(lines[0] + "\n", JoinLines(lines[1..]), '\n');
      CountAppend(lines[0], "\n", '\n');
      CountJoinLines(lines[1..]);
    }
  }

  /** Concatenates a sequence of strings. */
  function Concat(parts: seq<string>): (r: string)
  {
    if parts == [] then "" else parts[0] + Concat(parts[1..])
  }

  /** Each item followed by the separator. */
  function Terminated(items: seq<string>, sep: string): (r: seq<string>)
  {
    seq(|items|, i requires 0 <= i < |items| => items[i] + sep)
  }

  /**
   * `items.join(sep)`: the separator between consecutive items, none before
   * the first or after the last. Stated against `Concat`: a joined list
   * followed by one more separator is every item with its own separator.
   */
  function Join(items: seq<string>, sep: string): (r: string)
    ensures items == [] ==> r == ""
    ensures |items| == 1 ==> r == items[0]
    ensures items != [] ==> r + sep == Concat(Terminated(items, sep))
  {
    if items == [] then ""
    else if |items| == 1 then
      assert Terminated(items, sep)[1..] == [];
      items[0]
    else
      assert Terminated(items, sep)[1..] == Terminated(items[1..], sep);
      items[0] + sep + Join(items[1..], sep)
  }

  /**
   * JavaScript white space and line terminators: the characters
   * `String.prototype.trim` removes (sections 12.2 and 12.3 of ECMA-262;
   * the space separators are those of Unicode category Zs).
   */
  predicate IsJsWhitespace(c: char)
  {
    c in {'\t', '\U{000B}', '\U{000C}', ' ', '\U{00A0}', '\U{FEFF}',
          '\U{1680}', '\U{2000}', '\U{2001}', '\U{2002}', '\U{2003}', '\U{2004}',
          '\U{2005}', '\U{2006}', '\U{2007}', '\U{2008}', '\U{2009}', '\U{200A}',
          '\U{202F}', '\U{205F}', '\U{3000}',
          '\n', '\r', '\U{2028}', '\U{2029}'}
  }

  /** Removes the leading white space. */
  function TrimStart(s: string): (r: string)
    ensures |r| <= |s| && r == s[|s| - |r|..]
    ensures forall i :: 0 <= i < |s| - |r| ==> IsJsWhitespace(s[i])
    ensures r == "" || !IsJsWhitespace(r[0])
  {
    if s != [] && IsJsWhitespace(s[0]) then TrimStart(s[1..]) else s
  }

  /** Removes the trailing white space. */
  function TrimEnd(s: string): (r: string)
    ensures |r| <= |s| && r == s[..|r|]
    ensures forall i :: |r| <= i < |s| ==> IsJsWhitespace(s[i])
    ensures r == "" || !IsJsWhitespace(r[|r| - 1])
  {
    if s != [] && IsJsWhitespace(s[|s| - 1]) then TrimEnd(s[..|s| - 1]) else s
  }

  /** `s.trim()`: a text that neither starts nor ends with white space, and
      is empty exactly when `s` is all white space. */
  function Trim(s: string): (r: string)
    ensures r == "" || (!IsJsWhitespace(r[0]) && !IsJsWhitespace(r[|r| - 1]))
    ensures r == "" <==> forall i :: 0 <= i < |s| ==> IsJsWhitespace(s[i])
  {
    var t := TrimStart(s);
    var r := TrimEnd(t);
    assert r != "" ==> r[0] == t[0];
    assert r == "" <==> t == "";
    r
  }

  /** Trimming removes exactly the white space around a text whose first
      and last characters are not white space. */
  lemma TrimAround(pre: string, mid: string, post: string)
    requires forall i :: 0 <= i < |pre| ==> IsJsWhitespace(pre[i])
    requires forall i :: 0 <= i < |post| ==> IsJsWhitespace(post[i])
    requires mid != "" && !IsJsWhitespace(mid[0]) && !IsJsWhitespace(mid[|mid| - 1])
    ensures Trim(pre + mid + post) == mid
  {
    var rest := mid + post;
    assert rest[0] == mid[0];
    assert pre + mid + post == pre + rest;
    TrimStartAfter(pre, rest);
    TrimEndBefore(mid, post);
  }

  lemma TrimStartAfter(pre: string, rest: string)
    requires forall i :: 0 <= i < |pre| ==> IsJsWhitespace(pre[i])
    requires rest != "" && !IsJsWhitespace(rest[0])
    ensures TrimStart(pre + rest) == rest
  {
    var s := pre + rest;
    assert forall j :: 0 <= j < |pre| ==> s[j] == pre[j];
    assert s[|pre|] == rest[0];
  }

  lemma TrimEndBefore(mid: string, post: string)
    requires forall i :: 0 <= i < |post| ==> IsJsWhitespace(post[i])
    requires mid != "" && !IsJsWhitespace(mid[|mid| - 1])
    ensures TrimEnd(mid + post) == mid
  {
    var t := mid + post;
    assert forall j :: |mid| <= j < |t| ==> t[j] == post[j - |mid|];
    assert t[|mid| - 1] == mid[|mid| - 1];
  }
}
