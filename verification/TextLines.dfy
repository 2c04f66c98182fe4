/** Lines, columns and trimming, as the legacy file formats need them. */
module TextLines {
  import opened Wrappers

  /** The characters at which `splitlines` cuts. */
  predicate IsBreak(c: char) {
    '\n' <= c <= '\r' || '\U{001C}' <= c <= '\U{001E}' || c == '\U{0085}' || '\U{2028}' <= c <= '\U{2029}'
  }

  /** The characters that `strip` removes. */
  predicate IsSpace(c: char) {
    || '\t' <= c <= '\r' || '\U{001C}' <= c <= ' ' || c == '\U{0085}' || c == '\U{00A0}' || c == '\U{1680}'
    || '\U{2000}' <= c <= '\U{200A}' || '\U{2028}' <= c <= '\U{2029}' || c == '\U{202F}' || c == '\U{205F}'
    || c == '\U{3000}'
  }

  predicate NoBreak(s: string) { forall i :: 0 <= i < |s| ==> !IsBreak(s[i]) }

  function FirstBreak(s: string): (i: nat)
    ensures i <= |s| && NoBreak(s[..i]) && (i < |s| ==> IsBreak(s[i]))
  {
    if s == "" || IsBreak(s[0]) then 0
    else
      var i := 1 + FirstBreak(s[1..]);
      assert forall k :: 0 < k < i ==> s[k] == s[1..][..i - 1][k - 1];
      i
  }

  /** The lines of a text; `\r\n` is one break, and a break at the very end opens no further line. */
  function SplitLines(s: string): seq<string>
    decreases |s|
  {
    if s == "" then []
    else
      var i := FirstBreak(s);
      if i == |s| then [s]
      else if s[i] == '\r' && i + 1 < |s| && s[i + 1] == '\n' then [s[..i]] + SplitLines(s[i + 2..])
      else [s[..i]] + SplitLines(s[i + 1..])
  }

  /** Every line with its `\r\n`. */
  function JoinLines(lines: seq<string>): string {
    if lines == [] then "" else lines[0] + "\r\n" + JoinLines(lines[1..])
  }

  lemma FirstBreakAfter(line: string, rest: string)
    requires NoBreak(line)
    ensures FirstBreak(line + "\r\n" + rest) == |line|
  {
    var s := line + "\r\n" + rest;
    var i := FirstBreak(s);
    assert s[|line|] == '\r' && IsBreak('\r');
    assert forall k :: 0 <= k < |line| ==> s[k] == line[k];
    assert forall k :: |line| < k <= |s| ==> s[..k][|line|] == '\r';
  }

  lemma {:induction false} SplitOfJoin(lines: seq<string>)
    requires forall i :: 0 <= i < |lines| ==> NoBreak(lines[i])
    ensures SplitLines(JoinLines(lines)) == lines
  {
    if lines != [] {
      var line, rest := lines[0], JoinLines(lines[1..]);
      var s := line + "\r\n" + rest;
      FirstBreakAfter(line, rest);
      assert s[|line|] == '\r' && s[|line| + 1] == '\n';
      assert s[..|line|] == line && s[|line| + 2..] == rest;
      SplitOfJoin(lines[1..]);
    }
  }

  /** A line feed, vertical tab, form feed, carriage return, a separator, next line, or the Unicode line breaks. */
  predicate BreaksLines(c: char) {
    c in ['\n', '\U{000B}', '\U{000C}', '\r', '\U{001C}', '\U{001D}', '\U{001E}', '\U{0085}', '\U{2028}', '\U{2029}']
  }

  lemma BreaksAre(c: char)
    ensures IsBreak(c) <==> BreaksLines(c)
  {
  }

  lemma FirstBreakAt(line: string, c: char, rest: string)
    requires NoBreak(line) && IsBreak(c)
    ensures FirstBreak(line + [c] + rest) == |line|
  {
    var s := line + [c] + rest;
    assert s[|line|] == c;
    assert forall k :: 0 <= k < |line| ==> s[k] == line[k];
    assert forall k :: |line| < k <= |s| ==> s[..k][|line|] == c;
  }

  /** A line ends at any of the breaks, and a carriage return takes a line feed behind it with it. */
  lemma LineEndsAtBreak(line: string, c: char, rest: string)
    requires (forall i :: 0 <= i < |line| ==> !BreaksLines(line[i])) && BreaksLines(c)
    ensures var feed := c == '\r' && rest != "" && rest[0] == '\n';
      SplitLines(line + [c] + rest) == [line] + SplitLines(if feed then rest[1..] else rest)
  {
    BreaksAre(c);
    assert NoBreak(line) by {
      forall i | 0 <= i < |line|
        ensures !IsBreak(line[i])
      {
        BreaksAre(line[i]);
      }
    }
    hide BreaksLines, IsBreak, NoBreak, FirstBreak;
    FirstBreakAt(line, c, rest);
    var s := line + [c] + rest;
    assert s[..|line|] == line && s[|line|] == c && s[|line| + 1..] == rest;
    assert rest != "" ==> s[|line| + 1] == rest[0] && s[|line| + 2..] == rest[1..];
  }

  /** Without a break there is one line, and none when there is nothing. */
  lemma OneLine(line: string)
    requires forall i :: 0 <= i < |line| ==> !BreaksLines(line[i])
    ensures SplitLines(line) == if line == "" then [] else [line]
  {
    forall i | 0 <= i < |line|
      ensures !IsBreak(line[i])
    {
      BreaksAre(line[i]);
    }
    hide BreaksLines;
  }

  function StripLeft(s: string): string {
    if s != "" && IsSpace(s[0]) then StripLeft(s[1..]) else s
  }

  function StripRight(s: string): string {
    if s != "" && IsSpace(s[|s| - 1]) then StripRight(s[..|s| - 1]) else s
  }

  function Strip(s: string): string { StripRight(StripLeft(s)) }

  /** The white space of Unicode. */
  predicate IsBlank(c: char) {
    c in ['\t', '\n', '\U{000B}', '\U{000C}', '\r', '\U{001C}', '\U{001D}', '\U{001E}', '\U{001F}', ' ',
          '\U{0085}', '\U{00A0}', '\U{1680}', '\U{2000}', '\U{2001}', '\U{2002}', '\U{2003}', '\U{2004}', '\U{2005}',
          '\U{2006}', '\U{2007}', '\U{2008}', '\U{2009}', '\U{200A}', '\U{2028}', '\U{2029}', '\U{202F}', '\U{205F}',
          '\U{3000}']
  }

  lemma BlanksAre(c: char)
    ensures IsSpace(c) <==> IsBlank(c)
  {
  }

  lemma {:induction false} LeftBlanksGo(a: string, s: string)
    requires forall i :: 0 <= i < |a| ==> IsSpace(a[i])
    ensures StripLeft(a + s) == StripLeft(s)
    decreases |a|
  {
    if a == "" {
      assert a + s == s;
    } else {
      assert (a + s)[1..] == a[1..] + s;
      LeftBlanksGo(a[1..], s);
    }
  }

  lemma {:induction false} RightBlanksGo(s: string, b: string)
    requires forall i :: 0 <= i < |b| ==> IsSpace(b[i])
    ensures StripRight(s + b) == StripRight(s)
    decreases |b|
  {
    if b == "" {
      assert s + b == s;
    } else {
      assert (s + b)[..|s + b| - 1] == s + b[..|b| - 1];
      RightBlanksGo(s, b[..|b| - 1]);
    }
  }

  /** Trimming takes the blanks at both ends and nothing else. */
  lemma BlanksGo(a: string, s: string, b: string)
    requires s != "" && !IsBlank(s[0]) && !IsBlank(s[|s| - 1])
    requires (forall i :: 0 <= i < |a| ==> IsBlank(a[i])) && (forall i :: 0 <= i < |b| ==> IsBlank(b[i]))
    ensures Strip(a + s + b) == s
  {
    forall c: char
      ensures IsSpace(c) <==> IsBlank(c)
    {
      BlanksAre(c);
    }
    hide IsSpace, IsBlank;
    assert a + s + b == a + (s + b);
    LeftBlanksGo(a, s + b);
    assert (s + b)[0] == s[0];
    RightBlanksGo(s, b);
  }

  /** Neither end is white space. */
  predicate Trimmed(s: string) {
    s == "" || (!IsSpace(s[0]) && !IsSpace(s[|s| - 1]))
  }

  lemma TrimmedIsStripped(s: string)
    requires Trimmed(s)
    ensures Strip(s) == s
  {
  }

  /** The columns of a line, at least one. */
  function Columns(s: string): (cols: seq<string>)
    ensures |cols| >= 1
    decreases |s|
  {
    var i := IndexOf(s, ',');
    if i == |s| then [s] else [s[..i]] + Columns(s[i + 1..])
  }

  /** The columns with commas between them. */
  function JoinColumns(cols: seq<string>): string
    requires cols != []
  {
    if |cols| == 1 then cols[0] else cols[0] + [','] + JoinColumns(cols[1..])
  }

  lemma FirstColumn(a: string, rest: string)
    requires ',' !in a
    ensures Columns(a + [','] + rest) == [a] + Columns(rest)
  {
    IndexOfAfter(a, ',', rest);
    var s := a + [','] + rest;
    assert s[..|a|] == a && s[|a| + 1..] == rest;
  }

  /** Columns without commas are found again. */
  lemma {:induction false} ColumnsOfJoin(cols: seq<string>)
    requires cols != [] && forall i :: 0 <= i < |cols| ==> ',' !in cols[i]
    ensures Columns(JoinColumns(cols)) == cols
  {
    if |cols| == 1 {
      IndexOfNone(cols[0], ',');
    } else {
      var a, rest := cols[0], JoinColumns(cols[1..]);
      ColumnsOfJoin(cols[1..]);
      FirstColumn(a, rest);
      assert [a] + cols[1..] == cols;
      hide Columns;
    }
  }

  /** Joined columns stay on one line. */
  lemma {:induction false} JoinHasNoBreak(cols: seq<string>)
    requires cols != [] && forall i :: 0 <= i < |cols| ==> NoBreak(cols[i])
    ensures NoBreak(JoinColumns(cols))
  {
    if |cols| > 1 {
      JoinHasNoBreak(cols[1..]);
    }
  }

  /** Lexicographic order by character. */
  predicate Before(a: string, b: string) {
    a == "" || (b != "" && (a[0] < b[0] || (a[0] == b[0] && Before(a[1..], b[1..]))))
  }

  lemma {:induction false} BeforeIsTotal(a: string, b: string)
    ensures Before(a, b) || Before(b, a)
  {
    if a != "" && b != "" {
      BeforeIsTotal(a[1..], b[1..]);
    }
  }

  lemma {:induction false} BeforeIsTransitive(a: string, b: string, c: string)
    requires Before(a, b) && Before(b, c)
    ensures Before(a, c)
  {
    if a != "" && a[0] == b[0] == c[0] {
      BeforeIsTransitive(a[1..], b[1..], c[1..]);
    }
  }
}
