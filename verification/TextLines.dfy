/** Text as lines: `str.splitlines()` and `"\n".join(...)`. */
module TextLines {
  import opened Strings
  import opened Options

  /** The line boundaries of `splitlines`. */
  predicate IsBreak(c: char) {
    || '\n' <= c <= '\r' || '\U{1c}' <= c <= '\U{1e}' || c == '\U{85}' || c == '\U{2028}' || c == '\U{2029}'
  }

  predicate NoBreak(s: string) {
    forall i | 0 <= i < |s| :: !IsBreak(s[i])
  }

  predicate NoBreaks(lines: seq<string>) {
    forall i | 0 <= i < |lines| :: NoBreak(lines[i])
  }

  function FirstBreak(s: string): (b: nat)
    ensures b <= |s| && NoBreak(s[..b]) && (b < |s| ==> IsBreak(s[b]))
  {
    if s == [] || IsBreak(s[0]) then 0 else 1 + FirstBreak(s[1..])
  }

  /** Carriage return and newline together end one line. */
  function BreakWidth(s: string): nat
    requires s != []
    ensures 1 <= BreakWidth(s) <= |s|
  {
    if |s| > 1 && s[0] == '\r' && s[1] == '\n' then 2 else 1
  }

  function SplitLines(s: string): (lines: seq<string>)
    ensures NoBreaks(lines) && (lines == [] <==> s == [])
    decreases |s|
  {
    if s == [] then []
    else
      var b := FirstBreak(s);
      if b == |s| then [s] else [s[..b]] + SplitLines(s[b + BreakWidth(s[b..])..])
  }

  lemma {:induction false} FirstBreakAt(a: string, rest: string)
    requires NoBreak(a)
    ensures FirstBreak(a + "\n" + rest) == |a|
  {
    var s := a + "\n" + rest;
    if a != [] {
      assert s[1..] == a[1..] + "\n" + rest;
      FirstBreakAt(a[1..], rest);
    }
  }

  lemma SplitFirst(a: string, rest: string)
    requires NoBreak(a)
    ensures SplitLines(a + "\n" + rest) == [a] + SplitLines(rest)
  {
    var s := a + "\n" + rest;
    FirstBreakAt(a, rest);
    assert s[..|a|] == a && s[|a|..][0] == '\n';
    assert s[|a| + 1..] == rest;
  }

  lemma JoinedHead(lines: seq<string>)
    requires |lines| > 1
    ensures Join(lines, "\n") + "\n" == lines[0] + "\n" + (Join(lines[1..], "\n") + "\n")
  {
    Regroup(lines[0] + "\n", Join(lines[1..], "\n"), "\n");
  }

  lemma SplitOnly(line: string)
    requires NoBreak(line)
    ensures SplitLines(line + "\n") == [line]
  {
    SplitFirst(line, "");
    assert line + "\n" + "" == line + "\n";
  }

  /** Lines joined and ended by a newline are the lines again. */
  lemma {:induction false} SplitJoined(lines: seq<string>)
    requires NoBreaks(lines) && lines != []
    ensures SplitLines(Join(lines, "\n") + "\n") == lines
  {
    if |lines| == 1 {
      SplitOnly(lines[0]);
    } else {
      JoinedHead(lines);
      SplitFirst(lines[0], Join(lines[1..], "\n") + "\n");
      SplitJoined(lines[1..]);
    }
  }

  /** A final empty line joins as a final newline. */
  lemma {:induction false} JoinWithEmptyEnd(lines: seq<string>)
    requires lines != []
    ensures Join(lines + [""], "\n") == Join(lines, "\n") + "\n"
  {
    if |lines| == 1 {
      assert (lines + [""])[1..] == [""];
    } else {
      assert (lines + [""])[1..] == lines[1..] + [""];
      JoinWithEmptyEnd(lines[1..]);
    }
  }

  // ---------------------------------------------------------------- pieces of a line

  predicate IsSpace(c: char) {
    || c == ' ' || '\t' <= c <= '\r' || '\U{1c}' <= c <= '\U{1f}' || c == '\U{85}' || c == '\U{a0}'
    || c == '\U{1680}' || '\U{2000}' <= c <= '\U{200a}' || c == '\U{2028}' || c == '\U{2029}'
    || c == '\U{202f}' || c == '\U{205f}' || c == '\U{3000}'
  }

  predicate NoSpace(s: string) {
    forall i | 0 <= i < |s| :: !IsSpace(s[i])
  }

  predicate StartsWith(s: string, p: string) {
    |p| <= |s| && s[..|p|] == p
  }

  /** `s.split(sep, 1)`: the text before and after the leftmost occurrence. */
  function Cut(s: string, sep: string): Option<(string, string)> {
    if |s| < |sep| || sep == [] then None
    else if s[..|sep|] == sep then Some(([], s[|sep|..]))
    else Prepend([s[0]], Cut(s[1..], sep))
  }

  function Prepend(head: string, cut: Option<(string, string)>): Option<(string, string)> {
    match cut
    case None => None
    case Some((before, after)) => Some((head + before, after))
  }
}
