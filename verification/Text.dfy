/** Replacing characters and reading lines. */
module Text {
  import opened Common

  /** Every occurrence of `c` replaced by `to`. */
  function Replace(s: string, c: char, to: string): string {
    if s == [] then [] else (if s[0] == c then to else [s[0]]) + Replace(s[1..], c, to)
  }

  lemma {:induction false} ReplaceConcat(a: string, b: string, c: char, to: string)
    ensures Replace(a + b, c, to) == Replace(a, c, to) + Replace(b, c, to)
  {
    if a == [] {
      assert a + b == b;
    } else {
      assert (a + b)[1..] == a[1..] + b;
      ReplaceConcat(a[1..], b, c, to);
    }
  }

  lemma {:induction false} ReplaceAbsent(s: string, c: char, to: string)
    requires c !in s
    ensures Replace(s, c, to) == s
  {
    if s != [] {
      ReplaceAbsent(s[1..], c, to);
    }
  }

  lemma ReplaceOne(x: char, c: char, to: string)
    ensures Replace([x], c, to) == if x == c then to else [x]
  {
  }

  // ------------------------------------------------------------------- lines

  const NEWLINE := '\n'

  /** A reader of configuration files ends a line at any of these. */
  predicate Break(c: char) {
    c == '\n' || c == '\r' || c == '\0'
  }

  predicate OneLine(s: string) {
    forall c <- s :: !Break(c)
  }

  lemma OneLineConcat(a: string, b: string)
    ensures OneLine(a + b) <==> OneLine(a) && OneLine(b)
  {
    assert forall c :: c in a + b <==> c in a || c in b;
  }

  /** Each line followed by a newline. */
  function Unlines(lines: seq<string>): string {
    if lines == [] then [] else lines[0] + [NEWLINE] + Unlines(lines[1..])
  }

  /** Up to the first line break, and what follows it. */
  function FirstLine(s: string): (r: (string, string))
    ensures |r.1| <= |s| && (s != [] ==> |r.1| < |s|)
    ensures OneLine(r.0)
  {
    if s == [] then ([], [])
    else if Break(s[0]) then ([], s[1..])
    else
      var (line, rest) := FirstLine(s[1..]);
      ([s[0]] + line, rest)
  }

  lemma {:induction false} FirstLineOf(line: string, b: char, rest: string)
    requires OneLine(line) && Break(b)
    ensures FirstLine(line + [b] + rest) == (line, rest)
  {
    var s := line + [b] + rest;
    if line == [] {
      assert s[1..] == rest;
    } else {
      assert s[0] == line[0] && s[1..] == line[1..] + [b] + rest;
      FirstLineOf(line[1..], b, rest);
      assert [line[0]] + line[1..] == line;
    }
  }

  /** The first line of `text` satisfying `wanted`, and the text after it. */
  function FindLine(text: string, wanted: string -> bool): Option<(string, string)>
    decreases |text|
  {
    if text == [] then None
    else
      var (line, rest) := FirstLine(text);
      if wanted(line) then Some((line, rest)) else FindLine(rest, wanted)
  }

  /** Lines that are not wanted are skipped. */
  lemma {:induction false} SkipLines(lines: seq<string>, rest: string, wanted: string -> bool)
    requires forall l <- lines :: OneLine(l) && !wanted(l)
    ensures FindLine(Unlines(lines) + rest, wanted) == FindLine(rest, wanted)
  {
    if lines == [] {
      assert Unlines(lines) + rest == rest;
    } else {
      var more := Unlines(lines[1..]) + rest;
      assert Unlines(lines) + rest == lines[0] + [NEWLINE] + more;
      FirstLineOf(lines[0], NEWLINE, more);
      SkipLines(lines[1..], rest, wanted);
    }
  }
}
