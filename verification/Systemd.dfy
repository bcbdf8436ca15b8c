/** The systemd unit that runs the daemon, and a reader for its command line. */
module Systemd {
  import opened Common
  import opened Text
  import opened Expansion

  /** How the daemon is to be started. */
  datatype Plan = Plan(exe: string, socket: string, args: seq<string>) {
    /** The full argument vector, the socket spelled out. */
    function Argv(): seq<string> {
      [exe, "--socket", socket, "daemon"] + args
    }
  }

  // ---------------------------------------------------------------- printing

  predicate Plain(c: char) {
    || 'a' <= c <= 'z' || 'A' <= c <= 'Z' || '0' <= c <= '9'
    || c in "-_./:=,@+"
  }

  /** A word stays as it is; anything else is double-quoted, with backslashes
      and double quotes escaped by two replacements, one after the other. */
  function Quote(arg: string): string {
    if arg != [] && forall c <- arg :: Plain(c) then arg
    else "\"" + Replace(Replace(arg, '\\', "\\\\"), '"', "\\\"") + "\""
  }

  function Exec(argv: seq<string>): string {
    if argv == [] then []
    else if |argv| == 1 then Quote(argv[0])
    else Quote(argv[0]) + " " + Exec(argv[1..])
  }

  const KEY := "ExecStart="

  /** The unit: its command line between the lines before and after it. */
  function Render(head: seq<string>, plan: Plan, tail: string): string {
    Unlines(head) + (KEY + Exec(plan.Argv()) + [NEWLINE] + tail)
  }

  // ----------------------------------------------------------------- reading

  predicate Blank(c: char) {
    c == ' ' || c == '\t'
  }

  /** The one-letter escapes of systemd.syntax, section "Quoting". */
  function Unescape(c: char): Option<char> {
    match c
    case '\\' => Some('\\')
    case '"' => Some('"')
    case '\'' => Some('\'')
    case 'n' => Some('\n')
    case 'r' => Some('\r')
    case 't' => Some('\t')
    case 's' => Some(' ')
    case _ => None
  }

  /** The rest of an item opened by quote `q`: its text, and what follows the
      closing quote, which must be a blank or the end. */
  function Quoted(q: char, s: string, text: string): (r: Option<(string, string)>)
    ensures r.Some? ==> |r.value.1| < |s|
    decreases |s|
  {
    if s == [] then None
    else if s[0] == q then
      if |s| == 1 || Blank(s[1]) then Some((text, s[1..])) else None
    else if s[0] == '\\' then
      if |s| == 1 || Unescape(s[1]).None? then None
      else Quoted(q, s[2..], text + [Unescape(s[1]).value])
    else Quoted(q, s[1..], text + [s[0]])
  }

  /** The rest of an unquoted item. */
  function Unquoted(s: string, text: string): (r: Option<(string, string)>)
    ensures r.Some? ==> |r.value.1| <= |s| && (s != [] && !Blank(s[0]) ==> |r.value.1| < |s|)
    decreases |s|
  {
    if s == [] || Blank(s[0]) then Some((text, s))
    else if s[0] == '"' || s[0] == '\'' then None
    else if s[0] == '\\' then
      if |s| == 1 || Unescape(s[1]).None? then None
      else Unquoted(s[2..], text + [Unescape(s[1]).value])
    else Unquoted(s[1..], text + [s[0]])
  }

  function Item(s: string): (r: Option<(string, string)>)
    requires s != [] && !Blank(s[0])
    ensures r.Some? ==> |r.value.1| < |s|
  {
    if s[0] == '"' || s[0] == '\'' then Quoted(s[0], s[1..], []) else Unquoted(s, [])
  }

  /** The items of a command line, unquoted; None when it is malformed, or has a second
      command, after a semicolon on its own. */
  function Split(s: string): Option<seq<string>>
    decreases |s|
  {
    if s == [] then Some([])
    else if Blank(s[0]) then Split(s[1..])
    else if s[0] == ';' && (|s| == 1 || Blank(s[1])) then None
    else
      match Item(s)
      case None => None
      case Some((text, rest)) =>
        match Split(rest)
        case None => None
        case Some(more) => Some([text] + more)
  }

  predicate IsExec(line: string) {
    KEY <= line
  }

  /** The argument list a unit file runs: its first ExecStart line, split. */
  function ReadUnit(text: string): Option<seq<string>> {
    match FindLine(text, IsExec)
    case None => None
    case Some((line, _)) => if IsExec(line) then Split(line[|KEY|..]) else None
  }

  // ------------------------------------------------------------------ proofs

  function EscapeChar(c: char): string {
    if c == '\\' then "\\\\" else if c == '"' then "\\\"" else [c]
  }

  /** Escaping in a single pass. */
  function Escape(s: string): string {
    if s == [] then [] else EscapeChar(s[0]) + Escape(s[1..])
  }

  /** The two chained replacements amount to the single pass: the second leaves
      what the first put in alone. */
  lemma {:induction false} ChainIsSinglePass(s: string)
    ensures Replace(Replace(s, '\\', "\\\\"), '"', "\\\"") == Escape(s)
  {
    if s != [] {
      var first := if s[0] == '\\' then "\\\\" else [s[0]];
      ReplaceConcat(first, Replace(s[1..], '\\', "\\\\"), '"', "\\\"");
      ChainIsSinglePass(s[1..]);
      if s[0] == '\\' {
        ReplaceAbsent("\\\\", '"', "\\\"");
      } else {
        ReplaceOne(s[0], '"', "\\\"");
      }
    }
  }

  ghost predicate ItemEnd(rest: string) {
    rest == [] || Blank(rest[0])
  }

  lemma {:induction false} QuotedReads(arg: string, rest: string, text: string)
    requires ItemEnd(rest)
    ensures Quoted('"', Escape(arg) + "\"" + rest, text) == Some((text + arg, rest))
    decreases |arg|
  {
    var s := Escape(arg) + "\"" + rest;
    if arg == [] {
      assert s[1..] == rest && text + arg == text;
    } else {
      var e := EscapeChar(arg[0]);
      var more := Escape(arg[1..]) + "\"" + rest;
      assert s == e + more;
      QuotedReads(arg[1..], rest, text + [arg[0]]);
      assert text + [arg[0]] + arg[1..] == text + arg;
      assert s[|e|..] == more;
    }
  }

  lemma {:induction false} UnquotedReads(arg: string, rest: string, text: string)
    requires ItemEnd(rest) && forall c <- arg :: Plain(c)
    ensures Unquoted(arg + rest, text) == Some((text + arg, rest))
    decreases |arg|
  {
    if arg == [] {
      assert arg + rest == rest && text + arg == text;
    } else {
      assert Plain(arg[0]);
      assert (arg + rest)[1..] == arg[1..] + rest;
      UnquotedReads(arg[1..], rest, text + [arg[0]]);
      assert text + [arg[0]] + arg[1..] == text + arg;
    }
  }

  lemma PlainItemReads(arg: string, rest: string)
    requires ItemEnd(rest) && arg != [] && forall c <- arg :: Plain(c)
    ensures !Blank((arg + rest)[0]) && Item(arg + rest) == Some((arg, rest))
  {
    assert Plain(arg[0]) && (arg + rest)[0] == arg[0];
    UnquotedReads(arg, rest, []);
    assert [] + arg == arg;
  }

  lemma QuotedItemReads(arg: string, rest: string)
    requires ItemEnd(rest)
    ensures Item("\"" + Escape(arg) + "\"" + rest) == Some((arg, rest))
  {
    var s := "\"" + Escape(arg) + "\"" + rest;
    assert s[0] == '"' && s[1..] == Escape(arg) + "\"" + rest;
    QuotedReads(arg, rest, []);
    assert [] + arg == arg;
  }

  /** One printed item reads back as the argument it was printed from. */
  lemma ItemReads(arg: string, rest: string)
    requires ItemEnd(rest)
    ensures var s := Quote(arg) + rest;
            s != [] && !Blank(s[0]) && s[0] != ';' && Item(s) == Some((arg, rest))
  {
    if arg != [] && forall c <- arg :: Plain(c) {
      assert Plain(arg[0]) && (arg + rest)[0] == arg[0];
      PlainItemReads(arg, rest);
    } else {
      ChainIsSinglePass(arg);
      QuotedItemReads(arg, rest);
      assert Quote(arg)[0] == '"';
    }
  }

  /** Splitting the printed command line recovers exactly the argument list,
      whatever the arguments are. */
  lemma {:induction false} SplitInvertsExec(argv: seq<string>)
    ensures Split(Exec(argv)) == Some(argv)
  {
    if |argv| == 1 {
      ItemReads(argv[0], []);
      assert Quote(argv[0]) + [] == Quote(argv[0]);
      assert [argv[0]] + [] == argv;
    } else if |argv| > 1 {
      var rest := " " + Exec(argv[1..]);
      assert Exec(argv) == Quote(argv[0]) + rest;
      SplitInvertsExec(argv[1..]);
      assert rest[1..] == Exec(argv[1..]);
      ItemReads(argv[0], rest);
      assert [argv[0]] + argv[1..] == argv;
    }
  }

  // ------------------------------------------------------------- the whole unit

  /** A line that is not the command line. */
  ghost predicate OtherLine(line: string) {
    OneLine(line) && !IsExec(line)
  }

  /** The reader takes the command line to be what comes before its first line
      break. */
  lemma ReadsUpToBreak(head: seq<string>, exec: string, tail: string, line: string, b: char, rest: string)
    requires (forall l <- head :: OtherLine(l)) && OneLine(line) && Break(b)
    requires exec + [NEWLINE] + tail == line + [b] + rest
    ensures ReadUnit(Unlines(head) + (KEY + exec + [NEWLINE] + tail)) == Split(line)
  {
    SkipLines(head, KEY + exec + [NEWLINE] + tail, IsExec);
    assert KEY + exec + [NEWLINE] + tail == KEY + (exec + [NEWLINE] + tail) == KEY + line + [b] + rest;
    assert OneLine(KEY + line) by {
      assert forall c <- KEY :: !Break(c);
    }
    FirstLineOf(KEY + line, b, rest);
    assert (KEY + line)[|KEY|..] == line;
  }

  lemma {:induction false} UnclosedIsMalformed(arg: string, text: string)
    ensures Quoted('"', Escape(arg), text) == None
    decreases |arg|
  {
    if arg != [] {
      var e := EscapeChar(arg[0]);
      assert Escape(arg) == e + Escape(arg[1..]);
      assert Escape(arg)[|e|..] == Escape(arg[1..]);
      UnclosedIsMalformed(arg[1..], text + [arg[0]]);
    }
  }

  /** The printed command line up to its first line break, `b`, and the rest. */
  ghost predicate Cut(argv: seq<string>, line: string, b: char, rest: string) {
    Exec(argv) == line + [b] + rest && OneLine(line) && Break(b)
  }

  /** `p` and `rest` are the escaped form of `arg` before and after its first line
      break, `b`. */
  ghost predicate CutAt(arg: string, p: string, b: char, rest: string) {
    Escape(arg) == Escape(p) + [b] + rest && OneLine(Escape(p)) && Break(b)
  }

  lemma {:induction false} EscapeBreak(arg: string) returns (p: string, b: char, rest: string)
    requires !OneLine(arg)
    ensures CutAt(arg, p, b, rest)
  {
    if Break(arg[0]) {
      p, b, rest := [], arg[0], Escape(arg[1..]);
    } else {
      assert arg == [arg[0]] + arg[1..];
      p, b, rest := EscapeBreak(arg[1..]);
      p := [arg[0]] + p;
    }
  }

  lemma {:induction false} EscapeKeepsBreaks(arg: string)
    ensures OneLine(Escape(arg)) <==> OneLine(arg)
  {
    if arg != [] {
      EscapeKeepsBreaks(arg[1..]);
      assert arg == [arg[0]] + arg[1..];
      OneLineConcat(EscapeChar(arg[0]), Escape(arg[1..]));
      OneLineConcat([arg[0]], arg[1..]);
    }
  }

  lemma QuoteKeepsBreaks(arg: string)
    ensures OneLine(Quote(arg)) <==> OneLine(arg)
  {
    ChainIsSinglePass(arg);
    EscapeKeepsBreaks(arg);
    OneLineConcat("\"", Escape(arg));
    OneLineConcat("\"" + Escape(arg), "\"");
  }

  lemma {:induction false} ExecKeepsBreaks(argv: seq<string>)
    ensures OneLine(Exec(argv)) <==> forall a <- argv :: OneLine(a)
  {
    if argv != [] {
      QuoteKeepsBreaks(argv[0]);
      ExecKeepsBreaks(argv[1..]);
      assert argv == [argv[0]] + argv[1..];
      OneLineConcat(Quote(argv[0]), " ");
      OneLineConcat(Quote(argv[0]) + " ", Exec(argv[1..]));
    }
  }

  lemma OpenIsMalformed(p: string)
    ensures Split("\"" + Escape(p)) == None
  {
    var s := "\"" + Escape(p);
    assert s[0] == '"' && s[1..] == Escape(p);
    UnclosedIsMalformed(p, []);
    assert Item(s) == None;
  }

  lemma QuotedForm(arg: string)
    requires !OneLine(arg)
    ensures Quote(arg) == "\"" + Escape(arg) + "\""
  {
    ChainIsSinglePass(arg);
    var c :| c in arg && Break(c);
    assert !Plain(c);
  }

  lemma CutHere(first: string, more: string) returns (line: string, b: char, rest: string)
    requires !OneLine(first)
    ensures Quote(first) + more == line + [b] + rest && OneLine(line) && Break(b)
    ensures Split(line) == None
  {
    var p, after;
    QuotedForm(first);
    p, b, after := EscapeBreak(first);
    OpenIsMalformed(p);
    line, rest := "\"" + Escape(p), after + "\"" + more;
    Around(Escape(first), Escape(p), b, after, more);
  }

  lemma Around(s: string, a: string, c: char, b: string, more: string)
    requires s == a + [c] + b
    ensures "\"" + s + "\"" + more == ("\"" + a) + [c] + (b + "\"" + more)
  {
  }

  lemma CutLater(first: string, line: string)
    requires OneLine(first) && OneLine(line) && Split(line) == None
    ensures OneLine(Quote(first) + (" " + line))
    ensures Split(Quote(first) + (" " + line)) == None
  {
    QuoteKeepsBreaks(first);
    ItemReads(first, " " + line);
    assert (" " + line)[1..] == line;
  }

  lemma CutJoins(argv: seq<string>, line: string, b: char, rest: string)
    requires |argv| > 1 && Exec(argv[1..]) == line + [b] + rest
    ensures Exec(argv) == Quote(argv[0]) + (" " + line) + [b] + rest
  {
    Join(Quote(argv[0]), line, [b], rest);
  }

  lemma Join(q: string, line: string, b: string, rest: string)
    ensures q + " " + (line + b + rest) == q + (" " + line) + b + rest
  {
  }

  /** A line cut short by a line break ends inside quotes, and is malformed. */
  lemma {:induction false} CutIsMalformed(argv: seq<string>) returns (line: string, b: char, rest: string)
    requires exists a :: a in argv && !OneLine(a)
    ensures Cut(argv, line, b, rest) && Split(line) == None
  {
    assert argv == [argv[0]] + argv[1..];
    if !OneLine(argv[0]) {
      var more := if |argv| == 1 then [] else " " + Exec(argv[1..]);
      assert Exec(argv) == Quote(argv[0]) + more;
      line, b, rest := CutHere(argv[0], more);
    } else {
      line, b, rest := CutIsMalformed(argv[1..]);
      CutLater(argv[0], line);
      CutJoins(argv, line, b, rest);
      line := Quote(argv[0]) + (" " + line);
    }
  }

  lemma WholeReads(head: seq<string>, argv: seq<string>, tail: string)
    requires forall l <- head :: OtherLine(l)
    requires forall a <- argv :: OneLine(a)
    ensures ReadUnit(Unlines(head) + (KEY + Exec(argv) + [NEWLINE] + tail)) == Some(argv)
  {
    ExecKeepsBreaks(argv);
    SplitInvertsExec(argv);
    ReadsUpToBreak(head, Exec(argv), tail, Exec(argv), NEWLINE, tail);
  }

  lemma CutFails(head: seq<string>, argv: seq<string>, tail: string)
    requires forall l <- head :: OtherLine(l)
    requires exists a :: a in argv && !OneLine(a)
    ensures ReadUnit(Unlines(head) + (KEY + Exec(argv) + [NEWLINE] + tail)) == None
  {
    var line, b, rest := CutIsMalformed(argv);
    assert Exec(argv) + [NEWLINE] + tail == line + [b] + (rest + [NEWLINE] + tail);
    ReadsUpToBreak(head, Exec(argv), tail, line, b, rest + [NEWLINE] + tail);
  }

  /** Splitting the command line of the generated unit recovers exactly the argument
      list the daemon was installed with, empty arguments, spaces, quotes and
      backslashes included, if and only if no argument contains a line
      break. */
  lemma UnitReadsBackIff(head: seq<string>, plan: Plan, tail: string)
    requires forall l <- head :: OtherLine(l)
    ensures var argv := [plan.exe, "--socket", plan.socket, "daemon"] + plan.args;
            ReadUnit(Render(head, plan, tail)) == Some(argv) <==> forall a <- argv :: OneLine(a)
  {
    if forall a <- plan.Argv() :: OneLine(a) {
      WholeReads(head, plan.Argv(), tail);
    } else {
      CutFails(head, plan.Argv(), tail);
    }
  }

  /** What the unit runs: its command line split, then expanded. */
  function Runs(t: Tables, text: string): Option<seq<string>> {
    match ReadUnit(text)
    case None => None
    case Some(args) => Some(Expand(t, args))
  }

  /** Specifiers and variables are not escaped by the printer. The daemon is run with
      exactly the arguments it was installed with, whatever they stand for, if and
      only if every argument is literal and none contains a line break. */
  lemma UnitRunsAsInstalledIff(head: seq<string>, plan: Plan, tail: string)
    requires forall l <- head :: OtherLine(l)
    ensures var argv := [plan.exe, "--socket", plan.socket, "daemon"] + plan.args;
            (forall t :: Runs(t, Render(head, plan, tail)) == Some(argv)) <==> forall a <- argv :: OneLine(a) && Literal(a)
  {
    var argv := plan.Argv();
    if exists a :: a in argv && !OneLine(a) {
      CutFails(head, argv, tail);
      assert Runs(BARE, Render(head, plan, tail)) == None;
    } else if forall a <- argv :: Literal(a) {
      forall t ensures Runs(t, Render(head, plan, tail)) == Some(argv) {
        WholeReads(head, argv, tail);
        LiteralsStay(t, argv);
      }
    } else {
      WholeReads(head, argv, tail);
      ExpansionShrinks(argv);
      assert Runs(BARE, Render(head, plan, tail)) != Some(argv);
    }
  }
}
