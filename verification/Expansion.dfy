/** What systemd puts in place of percent specifiers and dollar variables in the
    words of a command line, once it has split it (systemd.unit, section
    "Specifiers"; systemd.service, section "Command lines"). */
module Expansion {
  import opened Common

  /** What specifiers and variables stand for. `value` is empty and `words` is none
      for a variable that is not set. */
  datatype Tables = Tables(specifier: char -> Option<string>, value: string -> string, words: string -> seq<string>)

  /** Two percent signs are one; an unknown specifier and a last percent sign stay. */
  function Specifiers(t: Tables, s: string): string {
    if s == [] then []
    else if s[0] != '%' || |s| == 1 then [s[0]] + Specifiers(t, s[1..])
    else if s[1] == '%' then ['%'] + Specifiers(t, s[2..])
    else
      match t.specifier(s[1])
      case Some(v) => v + Specifiers(t, s[2..])
      case None => [s[0], s[1]] + Specifiers(t, s[2..])
  }

  /** The position of the first closing brace or colon. */
  function NameEnd(s: string): (r: Option<nat>)
    ensures r.Some? ==> r.value < |s| && (s[r.value] == '}' || s[r.value] == ':')
  {
    if s == [] then None
    else if s[0] == '}' || s[0] == ':' then Some(0)
    else match NameEnd(s[1..]) case None => None case Some(i) => Some(i + 1)
  }

  /** Variables inside a word: only the form with braces, and two dollar signs for
      one. A colon in the braces makes them literal. */
  function Variables(t: Tables, s: string): string {
    if s == [] then []
    else if s[0] != '$' || |s| == 1 then [s[0]] + Variables(t, s[1..])
    else if s[1] == '$' then ['$'] + Variables(t, s[2..])
    else if s[1] == '{' then
      match NameEnd(s[2..])
      case None => s
      case Some(i) =>
        (if s[2 + i] == '}' then t.value(s[2..2 + i]) else s[..2 + i + 1]) + Variables(t, s[2 + i + 1..])
    else [s[0], s[1]] + Variables(t, s[2..])
  }

  /** The word is a variable as a whole, and gives way to any number of words. */
  predicate IsVariable(w: string) {
    w != [] && w[0] == '$' && (|w| == 1 || (w[1] != '{' && w[1] != '$'))
  }

  function Word(t: Tables, w: string): seq<string> {
    if IsVariable(w) then t.words(w[1..]) else [Variables(t, w)]
  }

  function Expand(t: Tables, args: seq<string>): seq<string> {
    if args == [] then [] else Word(t, Specifiers(t, args[0])) + Expand(t, args[1..])
  }

  // ------------------------------------------------------ what is left as it is

  /** No percent sign but the last character. */
  predicate NoSpecifier(s: string) {
    forall i :: 0 <= i < |s| - 1 ==> s[i] != '%'
  }

  /** No two dollar signs in a row, and none before braces around a name without a
      colon. */
  predicate NoVariable(s: string) {
    if s == [] then true
    else if s[0] != '$' || |s| == 1 then NoVariable(s[1..])
    else if s[1] == '$' then false
    else if s[1] == '{' then
      match NameEnd(s[2..])
      case None => true
      case Some(i) => s[2 + i] == ':' && NoVariable(s[2 + i + 1..])
    else NoVariable(s[2..])
  }

  predicate Literal(w: string) {
    NoSpecifier(w) && !IsVariable(w) && NoVariable(w)
  }

  lemma {:induction false} SpecifiersStay(t: Tables, s: string)
    requires NoSpecifier(s)
    ensures Specifiers(t, s) == s
  {
    if s != [] {
      SpecifiersStay(t, s[1..]);
    }
  }

  lemma {:induction false} VariablesStay(t: Tables, s: string)
    requires NoVariable(s)
    ensures Variables(t, s) == s
    decreases |s|
  {
    if s == [] {
    } else if s[0] != '$' || |s| == 1 {
      VariablesStay(t, s[1..]);
    } else if s[1] == '{' {
      var i := NameEnd(s[2..]);
      if i.Some? {
        VariablesStay(t, s[2 + i.value + 1..]);
        assert s == s[..2 + i.value + 1] + s[2 + i.value + 1..];
      }
    } else {
      VariablesStay(t, s[2..]);
      assert s == [s[0], s[1]] + s[2..];
    }
  }

  lemma {:induction false} LiteralsStay(t: Tables, args: seq<string>)
    requires forall a <- args :: Literal(a)
    ensures Expand(t, args) == args
  {
    if args != [] {
      assert args[0] in args;
      SpecifiersStay(t, args[0]);
      VariablesStay(t, args[0]);
      LiteralsStay(t, args[1..]);
      assert args == [args[0]] + args[1..];
    }
  }

  /** Every specifier stands for nothing, and no variable is set. */
  const BARE := Tables(c => Some(""), n => "", n => [])

  lemma {:induction false} SpecifiersShrink(s: string)
    ensures |Specifiers(BARE, s)| <= |s|
    ensures !NoSpecifier(s) ==> |Specifiers(BARE, s)| < |s|
    decreases |s|
  {
    if s != [] {
      if s[0] != '%' || |s| == 1 {
        SpecifiersShrink(s[1..]);
        assert NoSpecifier(s[1..]) ==> NoSpecifier(s);
      } else {
        SpecifiersShrink(s[2..]);
      }
    }
  }

  lemma {:induction false} VariablesShrink(s: string)
    ensures |Variables(BARE, s)| <= |s|
    ensures !NoVariable(s) ==> |Variables(BARE, s)| < |s|
    decreases |s|
  {
    if s == [] {
    } else if s[0] != '$' || |s| == 1 {
      VariablesShrink(s[1..]);
    } else if s[1] == '{' {
      var i := NameEnd(s[2..]);
      if i.Some? {
        VariablesShrink(s[2 + i.value + 1..]);
      }
    } else {
      VariablesShrink(s[2..]);
    }
  }

  function Size(args: seq<string>): nat {
    if args == [] then 0 else |args[0]| + 1 + Size(args[1..])
  }

  lemma {:induction false} ExpansionShrinks(args: seq<string>)
    ensures Size(Expand(BARE, args)) <= Size(args)
    ensures (exists a <- args :: !Literal(a)) ==> Size(Expand(BARE, args)) < Size(args)
  {
    if args != [] {
      var w := Specifiers(BARE, args[0]);
      SpecifiersShrink(args[0]);
      VariablesShrink(w);
      if NoSpecifier(args[0]) {
        SpecifiersStay(BARE, args[0]);
      }
      ExpansionShrinks(args[1..]);
      assert args == [args[0]] + args[1..];
      if !IsVariable(w) {
        assert Expand(BARE, args)[1..] == Expand(BARE, args[1..]);
      } else {
        assert Expand(BARE, args) == Expand(BARE, args[1..]);
      }
    }
  }

  /** Arguments reach the program as they are, whatever specifiers and variables
      stand for, exactly when each of them is literal. */
  lemma ExpansionKeepsIff(args: seq<string>)
    ensures (forall t :: Expand(t, args) == args) <==> forall a <- args :: Literal(a)
  {
    if forall a <- args :: Literal(a) {
      forall t ensures Expand(t, args) == args {
        LiteralsStay(t, args);
      }
    } else {
      ExpansionShrinks(args);
      assert Expand(BARE, args) != args;
    }
  }

  /** What is literal and what is not, by example. */
  lemma LiteralExamples()
    ensures !Literal("%h") && !Literal("a%%b") && !Literal("$HOME") && !Literal("a$$") && !Literal("${H}")
    ensures Literal("") && Literal("100%") && Literal("a$b") && Literal("${H:}")
  {
    BracedExample("${H}", "H}");
    BracedExample("${H:}", "H:}");
  }

  lemma BracedExample(s: string, name: string)
    requires |name| > 1 && name[0] == 'H' && s == "${" + name
    ensures name[1] == '}' ==> !NoVariable(s)
    ensures |name| == 3 && name[1] == ':' && name[2] == '}' ==> NoVariable(s)
  {
    assert s[2..] == name && NameEnd(name[1..]) == if name[1] == '}' || name[1] == ':' then Some(0) else NameEnd(name[1..]);
    if |name| == 3 && name[1] == ':' {
      assert s[4..] == [name[2]] && s[4..][1..] == [];
    }
  }
}
