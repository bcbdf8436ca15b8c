/** The argument array of the launchd property list, and a reader for it. */
module Launchd {
  import opened Common
  import opened Text

  // ---------------------------------------------------------------- printing

  /** Five replacements, one after the other, the ampersand first. */
  function Escape(s: string): string {
    Replace(Replace(Replace(Replace(Replace(s, '&', "&amp;"), '<', "&lt;"), '>', "&gt;"), '"', "&quot;"), '\'', "&apos;")
  }

  const OPEN := "<string>"
  const CLOSE := "</string>"
  const END := "</array>"

  function RenderArgs(argv: seq<string>): string {
    if argv == [] then [] else "    " + OPEN + Escape(argv[0]) + CLOSE + "\n" + RenderArgs(argv[1..])
  }

  /** The array, from after its opening tag to its closing one. */
  function RenderArray(argv: seq<string>): string {
    "\n" + RenderArgs(argv) + "  " + END
  }

  // ----------------------------------------------------------------- reading

  /** The entities of section 4.6 of XML 1.0, without the ampersand. */
  function Entity(s: string): Option<(char, nat)> {
    if "amp;" <= s then Some(('&', 4))
    else if "lt;" <= s then Some(('<', 3))
    else if "gt;" <= s then Some(('>', 3))
    else if "quot;" <= s then Some(('"', 5))
    else if "apos;" <= s then Some(('\'', 5))
    else None
  }

  /** Character data with its entities expanded; None when it has markup or an
      ampersand that starts no predefined entity. */
  function Decode(s: string): Option<string>
    decreases |s|
  {
    if s == [] then Some([])
    else if s[0] == '<' then None
    else if s[0] == '&' then
      match Entity(s[1..])
      case None => None
      case Some((c, n)) =>
        if n > |s| - 1 then None
        else
          match Decode(s[1 + n..])
          case None => None
          case Some(rest) => Some([c] + rest)
    else
      match Decode(s[1..])
      case None => None
      case Some(rest) => Some([s[0]] + rest)
  }

  predicate Space(c: char) {
    c == ' ' || c == '\n' || c == '\t' || c == '\r'
  }

  /** Character data up to the next tag. */
  function DataUpTo(s: string): (r: (string, string))
    ensures s == r.0 + r.1
  {
    if s == [] || s[0] == '<' then ([], s)
    else
      var (data, rest) := DataUpTo(s[1..]);
      ([s[0]] + data, rest)
  }

  /** The strings of an array, up to its closing tag. */
  function ReadArray(s: string): Option<seq<string>>
    decreases |s|
  {
    if s == [] then None
    else if Space(s[0]) then ReadArray(s[1..])
    else if END <= s then Some([])
    else if OPEN <= s then
      var (data, rest) := DataUpTo(s[|OPEN|..]);
      if !(CLOSE <= rest) then None
      else
        match (Decode(data), ReadArray(rest[|CLOSE|..]))
        case (Some(text), Some(more)) => Some([text] + more)
        case _ => None
    else None
  }

  /** The characters an XML document may have: production 2 of XML 1.0, section
      2.2. */
  predicate XmlChar(c: char) {
    c == '\t' || c == '\n' || c == '\r' || (' ' <= c && c as int != 0xFFFE && c as int != 0xFFFF)
  }

  /** Line ends as section 2.11 of XML 1.0 has them read: a carriage return, alone or
      before a line feed, is a line feed. */
  function Normalize(s: string): string {
    if s == [] then []
    else if s[0] != '\r' then [s[0]] + Normalize(s[1..])
    else if |s| > 1 && s[1] == '\n' then Normalize(s[1..])
    else ['\n'] + Normalize(s[1..])
  }

  /** What an XML reader makes of the array. */
  function ParseArray(s: string): Option<seq<string>> {
    if forall c <- s :: XmlChar(c) then ReadArray(Normalize(s)) else None
  }

  // ------------------------------------------------------------------ proofs

  function EscapeChar(c: char): string {
    match c
    case '&' => "&amp;"
    case '<' => "&lt;"
    case '>' => "&gt;"
    case '"' => "&quot;"
    case '\'' => "&apos;"
    case _ => [c]
  }

  /** Escaping in a single pass, character by character. */
  function EscapeEach(s: string): string {
    if s == [] then [] else EscapeChar(s[0]) + EscapeEach(s[1..])
  }

  lemma EscapeConcat(a: string, b: string)
    ensures Escape(a + b) == Escape(a) + Escape(b)
  {
    var a1, b1 := Replace(a, '&', "&amp;"), Replace(b, '&', "&amp;");
    var a2, b2 := Replace(a1, '<', "&lt;"), Replace(b1, '<', "&lt;");
    var a3, b3 := Replace(a2, '>', "&gt;"), Replace(b2, '>', "&gt;");
    var a4, b4 := Replace(a3, '"', "&quot;"), Replace(b3, '"', "&quot;");
    ReplaceConcat(a, b, '&', "&amp;");
    ReplaceConcat(a1, b1, '<', "&lt;");
    ReplaceConcat(a2, b2, '>', "&gt;");
    ReplaceConcat(a3, b3, '"', "&quot;");
    ReplaceConcat(a4, b4, '\'', "&apos;");
  }

  /** The later replacements leave alone text without what they replace. */
  lemma LastFour(e: string)
    requires forall c <- e :: !Markup(c)
    ensures Replace(Replace(Replace(Replace(e, '<', "&lt;"), '>', "&gt;"), '"', "&quot;"), '\'', "&apos;") == e
  {
    ReplaceAbsent(e, '<', "&lt;");
    LastThree(e);
  }

  lemma LastThree(e: string)
    requires forall c <- e :: !Markup(c)
    ensures Replace(Replace(Replace(e, '>', "&gt;"), '"', "&quot;"), '\'', "&apos;") == e
  {
    ReplaceAbsent(e, '>', "&gt;");
    ReplaceAbsent(e, '"', "&quot;");
    ReplaceAbsent(e, '\'', "&apos;");
  }

  lemma EscapeAmpersand()
    ensures Escape("&") == "&amp;"
  {
    ReplaceOne('&', '&', "&amp;");
    var e := "&amp;";
    assert forall c <- e :: !Markup(c);
    LastFour(e);
  }

  lemma EscapeLess()
    ensures Escape("<") == "&lt;"
  {
    ReplaceAbsent("<", '&', "&amp;");
    ReplaceOne('<', '<', "&lt;");
    var e := "&lt;";
    assert forall c <- e :: !Markup(c);
    LastThree(e);
  }

  lemma EscapeGreater()
    ensures Escape(">") == "&gt;"
  {
  }

  lemma EscapeQuote()
    ensures Escape(['"']) == "&quot;"
  {
    ReplaceAbsent(['"'], '&', "&amp;");
    ReplaceAbsent(['"'], '<', "&lt;");
    ReplaceAbsent(['"'], '>', "&gt;");
    ReplaceOne('"', '"', "&quot;");
    ReplaceAbsent("&quot;", '\'', "&apos;");
  }

  lemma EscapeApostrophe()
    ensures Escape(['\'']) == "&apos;"
  {
  }

  lemma EscapeOrdinary(c: char)
    requires c != '&' && !Markup(c)
    ensures Escape([c]) == [c]
  {
    ReplaceAbsent([c], '&', "&amp;");
    ReplaceAbsent([c], '<', "&lt;");
    ReplaceAbsent([c], '>', "&gt;");
    ReplaceAbsent([c], '"', "&quot;");
    ReplaceAbsent([c], '\'', "&apos;");
  }

  /** A replacement leaves alone what earlier ones put in; because the ampersand
      goes first, no inserted ampersand is escaped again. */
  lemma EscapeOne(c: char)
    ensures Escape([c]) == EscapeChar(c)
  {
    match c
    case '&' => EscapeAmpersand();
    case '<' => EscapeLess();
    case '>' => EscapeGreater();
    case '"' => EscapeQuote();
    case '\'' => EscapeApostrophe();
    case _ => EscapeOrdinary(c);
  }

  /** The five chained replacements amount to a single pass. */
  lemma {:induction false} ChainIsSinglePass(s: string)
    ensures Escape(s) == EscapeEach(s)
  {
    if s != [] {
      assert s == [s[0]] + s[1..];
      EscapeConcat([s[0]], s[1..]);
      EscapeOne(s[0]);
      ChainIsSinglePass(s[1..]);
    }
  }

  predicate Markup(c: char) {
    c == '<' || c == '>' || c == '"' || c == '\''
  }

  /** The output contains none of the markup characters. */
  lemma {:induction false} EscapeHasNoMarkup(s: string)
    ensures forall c <- Escape(s) :: !Markup(c)
  {
    ChainIsSinglePass(s);
    if s != [] {
      EscapeHasNoMarkup(s[1..]);
      ChainIsSinglePass(s[1..]);
    }
  }

  ghost function Prepend(c: char, rest: Option<string>): Option<string> {
    if rest.None? then None else Some([c] + rest.value)
  }

  lemma DecodeEntity(c: char, e: string, rest: string)
    requires |e| > 1 && e[0] == '&' && Entity(e[1..] + rest) == Some((c, |e| - 1))
    ensures Decode(e + rest) == Prepend(c, Decode(rest))
  {
    var s := e + rest;
    assert s[0] == '&' && s[1..] == e[1..] + rest && s[1 + (|e| - 1)..] == rest;
  }

  lemma DecodeChar(c: char, rest: string)
    ensures Decode(EscapeChar(c) + rest) == Prepend(c, Decode(rest))
  {
    if |EscapeChar(c)| > 1 {
      EntityReads(c, rest);
      DecodeEntity(c, EscapeChar(c), rest);
    } else {
      assert ([c] + rest)[1..] == rest;
    }
  }

  lemma EntityReads(c: char, rest: string)
    requires |EscapeChar(c)| > 1
    ensures Entity(EscapeChar(c)[1..] + rest) == Some((c, |EscapeChar(c)| - 1))
  {
    var t := EscapeChar(c)[1..] + rest;
    assert t[0] == EscapeChar(c)[1] && t[1] == EscapeChar(c)[2];
    match c
    case '&' => assert t[..4] == "amp;";
    case '<' => assert t[..3] == "lt;";
    case '>' => assert t[..3] == "gt;";
    case '"' => assert t[..5] == "quot;";
    case '\'' => assert t[..5] == "apos;";
  }

  /** Decoding the predefined entities inverts the escaper on every string. */
  lemma {:induction false} DecodeInvertsEscape(s: string)
    ensures Decode(Escape(s)) == Some(s)
  {
    ChainIsSinglePass(s);
    if s != [] {
      ChainIsSinglePass(s[1..]);
      DecodeInvertsEscape(s[1..]);
      DecodeChar(s[0], EscapeEach(s[1..]));
      assert [s[0]] + s[1..] == s;
    }
  }

  lemma {:induction false} DataReads(data: string, rest: string)
    requires '<' !in data && rest != [] && rest[0] == '<'
    ensures DataUpTo(data + rest) == (data, rest)
  {
    if data == [] {
      assert data + rest == rest;
    } else {
      assert (data + rest)[0] == data[0] && (data + rest)[1..] == data[1..] + rest;
      DataReads(data[1..], rest);
      assert [data[0]] + data[1..] == data;
    }
  }

  lemma {:induction false} SkipSpace(pad: string, s: string)
    requires forall c <- pad :: Space(c)
    ensures ReadArray(pad + s) == ReadArray(s)
  {
    if pad == [] {
      assert pad + s == s;
    } else {
      assert Space(pad[0]) && (pad + s)[1..] == pad[1..] + s;
      SkipSpace(pad[1..], s);
    }
  }

  lemma ReadString(text: string, rest: string, more: seq<string>)
    requires ReadArray(rest) == Some(more)
    ensures ReadArray(OPEN + Escape(text) + CLOSE + rest) == Some([text] + more)
  {
    var s := OPEN + Escape(text) + CLOSE + rest;
    assert s[0] == '<' && s[1] == 's' && OPEN <= s && !(END <= s) by {
      assert END[1] == '/' && OPEN[0] == '<' && OPEN[1] == 's';
    }
    assert s[|OPEN|..] == Escape(text) + (CLOSE + rest);
    EscapeHasNoMarkup(text);
    assert CLOSE[0] == '<';
    DataReads(Escape(text), CLOSE + rest);
    assert (CLOSE + rest)[|CLOSE|..] == rest;
    DecodeInvertsEscape(text);
  }

  /** The quoting is sound: but for what XML does to a document before that, reading
      the rendered array back recovers exactly the argument list. */
  lemma {:induction false} ArrayReadsBack(argv: seq<string>)
    ensures ReadArray(RenderArray(argv)) == Some(argv)
  {
    SkipSpace("\n", RenderArgs(argv) + "  " + END);
    assert RenderArray(argv) == "\n" + (RenderArgs(argv) + "  " + END);
    ArgsReadBack(argv);
  }

  lemma {:induction false} ArgsReadBack(argv: seq<string>)
    ensures ReadArray(RenderArgs(argv) + "  " + END) == Some(argv)
  {
    if argv == [] {
      SkipSpace("  ", END);
      assert RenderArgs(argv) + "  " + END == "  " + END;
      assert !Space(END[0]) && END <= END;
    } else {
      var rest := RenderArgs(argv[1..]) + "  " + END;
      ArgsReadBack(argv[1..]);
      ArgReadsBack(argv[0], rest, argv[1..]);
      Regroup("    ", OPEN, Escape(argv[0]), CLOSE, "\n", RenderArgs(argv[1..]), "  ", END);
      assert [argv[0]] + argv[1..] == argv;
    }
  }

  lemma Regroup(a: string, b: string, c: string, d: string, e: string, f: string, g: string, h: string)
    ensures a + b + c + d + e + f + g + h == a + (b + c + d + (e + (f + g + h)))
  {
  }

  lemma ArgReadsBack(arg: string, rest: string, more: seq<string>)
    requires ReadArray(rest) == Some(more)
    ensures ReadArray("    " + (OPEN + Escape(arg) + CLOSE + ("\n" + rest))) == Some([arg] + more)
  {
    SkipSpace("\n", rest);
    ReadString(arg, "\n" + rest, more);
    SkipSpace("    ", OPEN + Escape(arg) + CLOSE + ("\n" + rest));
  }

  // --------------------------------------------------- as an XML reader has it

  ghost predicate All(s: string, p: char -> bool) {
    forall c <- s :: p(c)
  }

  lemma AllConcat(a: string, b: string, p: char -> bool)
    ensures All(a + b, p) <==> All(a, p) && All(b, p)
  {
    assert forall c :: c in a + b <==> c in a || c in b;
  }

  /** `p` holds of everything the printer itself puts in. */
  ghost predicate OfPrinted(p: char -> bool) {
    p('\n') && forall c: char :: ' ' <= c <= '~' ==> p(c)
  }

  lemma {:induction false} EscapeAll(s: string, p: char -> bool)
    requires OfPrinted(p)
    ensures All(Escape(s), p) <==> All(s, p)
  {
    ChainIsSinglePass(s);
    if s != [] {
      EscapeAll(s[1..], p);
      ChainIsSinglePass(s[1..]);
      AllConcat(EscapeChar(s[0]), EscapeEach(s[1..]), p);
      AllConcat([s[0]], s[1..], p);
      assert s == [s[0]] + s[1..];
      EscapeCharAll(s[0], p);
    }
  }

  lemma EscapeCharAll(c: char, p: char -> bool)
    requires OfPrinted(p)
    ensures All(EscapeChar(c), p) <==> p(c)
  {
    assert EscapeChar(c) == [c] || forall d <- EscapeChar(c) :: ' ' <= d <= '~';
    if EscapeChar(c) == [c] {
      assert c in EscapeChar(c);
    }
  }

  lemma {:induction false} ArgsAll(argv: seq<string>, p: char -> bool)
    requires OfPrinted(p)
    ensures All(RenderArgs(argv), p) <==> forall a <- argv :: All(a, p)
  {
    if argv != [] {
      ArgsAll(argv[1..], p);
      EscapeAll(argv[0], p);
      LineAll(argv[0], p);
      AllConcat("    " + OPEN + Escape(argv[0]) + CLOSE + "\n", RenderArgs(argv[1..]), p);
      assert argv == [argv[0]] + argv[1..];
    }
  }

  lemma LineAll(arg: string, p: char -> bool)
    requires OfPrinted(p)
    ensures All("    " + OPEN + Escape(arg) + CLOSE + "\n", p) <==> All(Escape(arg), p)
  {
    AllConcat("    ", OPEN, p);
    AllConcat("    " + OPEN, Escape(arg), p);
    AllConcat("    " + OPEN + Escape(arg), CLOSE, p);
    AllConcat("    " + OPEN + Escape(arg) + CLOSE, "\n", p);
  }

  lemma {:induction false} NormalizeKeeps(s: string)
    ensures '\r' !in Normalize(s)
    ensures '\r' !in s ==> Normalize(s) == s
  {
    if s != [] {
      NormalizeKeeps(s[1..]);
      assert s == [s[0]] + s[1..];
    }
  }

  lemma {:induction false} DecodeAddsNoReturn(s: string)
    requires '\r' !in s && Decode(s).Some?
    ensures '\r' !in Decode(s).value
    decreases |s|
  {
    if s == [] {
    } else if s[0] == '&' {
      DecodeAddsNoReturn(s[1 + Entity(s[1..]).value.1..]);
    } else {
      DecodeAddsNoReturn(s[1..]);
    }
  }

  lemma {:induction false} ReadsNoReturn(s: string)
    requires '\r' !in s && ReadArray(s).Some?
    ensures forall a <- ReadArray(s).value :: '\r' !in a
    decreases |s|
  {
    if Space(s[0]) {
      ReadsNoReturn(s[1..]);
    } else if !(END <= s) {
      var (data, rest) := DataUpTo(s[|OPEN|..]);
      assert forall c <- data + rest :: c in s;
      assert forall c <- data :: c in data + rest;
      assert forall c <- rest :: c in data + rest;
      DecodeAddsNoReturn(data);
      ReadsNoReturn(rest[|CLOSE|..]);
    }
  }

  lemma ArrayAll(argv: seq<string>, p: char -> bool)
    requires OfPrinted(p)
    ensures All(RenderArray(argv), p) <==> forall a <- argv :: All(a, p)
  {
    ArgsAll(argv, p);
    AllConcat("\n", RenderArgs(argv), p);
    AllConcat("\n" + RenderArgs(argv), "  ", p);
    AllConcat("\n" + RenderArgs(argv) + "  ", END, p);
  }

  /** An XML reader recovers exactly the argument list if and only if no argument
      has a carriage return or a character XML has no place for. */
  lemma ArrayParsesBackIff(argv: seq<string>)
    ensures ParseArray(RenderArray(argv)) == Some(argv) <==> forall a <- argv :: forall c <- a :: XmlChar(c) && c != '\r'
  {
    var s := RenderArray(argv);
    var kept := c => c != '\r';
    ArrayAll(argv, XmlChar);
    ArrayAll(argv, kept);
    NormalizeKeeps(s);
    ArrayReadsBack(argv);
    assert '\r' !in s <==> All(s, kept);
    assert forall a: string :: '\r' !in a <==> All(a, kept);
    if (forall c <- s :: XmlChar(c)) && ReadArray(Normalize(s)).Some? {
      ReadsNoReturn(Normalize(s));
    }
  }
}
