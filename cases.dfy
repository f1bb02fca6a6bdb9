/**
 * The unit tests of the front end (src/lagoon/interpreter/mod.rs and
 * src/lagoon/parser.rs), stated over the model.
 */
module InterpreterCases {
  import T = Trees
  import E = Expressions
  import opened Interpreter

  /** The body `0-;` of the loops below, as a tree and as a closure. */
  function BodyTree(): T.Tree
  {
    T.NewTree([T.NewSymbol("0-", 1), T.NewExec(1)])
  }

  function BodyClosure(): E.Closure
  {
    E.NewClosure([E.NewInstruction(0, '-'), E.NewExec()])
  }

  lemma BodyTranslates()
    ensures TranslatableNodes(BodyTree().nodes) && Interpret(BodyTree()) == BodyClosure()
  {
    assert IndexOf("0") == 0;
  }

  /** A tree `0+{guards|0-;};` and the closure it should translate to. */
  lemma LoopTranslates(guards: seq<T.Guard>, expected: seq<E.Guard>)
    requires |guards| == |expected|
    requires forall k :: 0 <= k < |guards| ==> TranslateGuard(guards[k]) == expected[k]
    ensures var tree := T.NewTree([T.NewSymbol("0+", 1), T.NewLoop(guards, BodyTree()), T.NewExec(1)]);
            TranslatableNodes(tree.nodes) &&
            Interpret(tree) == E.NewClosure([E.NewInstruction(0, '+'), E.NewLoop(expected, BodyClosure()), E.NewExec()])
  {
    BodyTranslates();
    assert IndexOf("0") == 0;
    var loop := T.NewLoop(guards, BodyTree());
    assert Translate(loop) == E.NewLoop(expected, BodyClosure());
  }

  /** Leading zeros are read through: the symbol `007+` is an instruction on slot 7. */
  lemma PaddedIndex()
    ensures Translate(T.NewSymbol("007+", 1)) == E.NewInstruction(7, '+')
  {
    assert "007+"[..3] == "0" + ("0" + "7");
    ZeroPaddedIndex("0" + "7");
    ZeroPaddedIndex("7");
    assert IndexOf("7") == 7;
  }

  /** An instruction corresponds to a symbol only at the index the symbol's digits denote. */
  lemma IndexMustMatch()
    ensures Corresponds(T.NewSymbol("5+", 1), E.NewInstruction(5, '+'))
    ensures !Corresponds(T.NewSymbol("5+", 1), E.NewInstruction(7, '+'))
  {
    assert "5+"[..1] == "5";
    assert IndexOf("5") == 5;
  }

  /** `single`: a symbol and an exec. */
  lemma Single()
    ensures var tree := T.NewTree([T.NewSymbol("0+", 1), T.NewExec(1)]);
            TranslatableNodes(tree.nodes) && Interpret(tree) == E.NewClosure([E.NewInstruction(0, '+'), E.NewExec()])
  {
    assert IndexOf("0") == 0;
  }

  /** `multiple`: two instructions and an exec. */
  lemma Multiple()
    ensures var tree := T.NewTree([T.NewSymbol("0+", 1), T.NewSymbol("1+", 1), T.NewExec(1)]);
            TranslatableNodes(tree.nodes) &&
            Interpret(tree) == E.NewClosure([E.NewInstruction(0, '+'), E.NewInstruction(1, '+'), E.NewExec()])
  {
    assert "0+"[..1] == "0" && "1+"[..1] == "1";
    assert IndexOf("0") == 0 && IndexOf("1") == 1;
    assert Translate(T.NewSymbol("0+", 1)) == E.NewInstruction(0, '+');
    assert Translate(T.NewSymbol("1+", 1)) == E.NewInstruction(1, '+');
  }

  /** `nested`: a loop on slot 0. */
  lemma Nested()
    ensures var tree := T.NewTree([T.NewSymbol("0+", 1), T.NewLoop([T.NewGuard("0", false)], BodyTree()), T.NewExec(1)]);
            TranslatableNodes(tree.nodes) &&
            Interpret(tree) == E.NewClosure([E.NewInstruction(0, '+'), E.NewLoop([E.NewGuard(0, false)], BodyClosure()), E.NewExec()])
  {
    assert IndexOf("0") == 0;
    LoopTranslates([T.NewGuard("0", false)], [E.NewGuard(0, false)]);
  }

  /** `negated`: a loop while slot 0 is zero. */
  lemma Negated()
    ensures var tree := T.NewTree([T.NewSymbol("0+", 1), T.NewLoop([T.NewGuard("0", true)], BodyTree()), T.NewExec(1)]);
            TranslatableNodes(tree.nodes) &&
            Interpret(tree) == E.NewClosure([E.NewInstruction(0, '+'), E.NewLoop([E.NewGuard(0, true)], BodyClosure()), E.NewExec()])
  {
    assert IndexOf("0") == 0;
    LoopTranslates([T.NewGuard("0", true)], [E.NewGuard(0, true)]);
  }

  /** `multiple_guards`: a loop with a plain and a negated guard. */
  lemma MultipleGuards()
    ensures var tree := T.NewTree([T.NewSymbol("0+", 1), T.NewLoop([T.NewGuard("0", false), T.NewGuard("1", true)], BodyTree()), T.NewExec(1)]);
            TranslatableNodes(tree.nodes) &&
            Interpret(tree) == E.NewClosure([E.NewInstruction(0, '+'), E.NewLoop([E.NewGuard(0, false), E.NewGuard(1, true)], BodyClosure()), E.NewExec()])
  {
    assert IndexOf("0") == 0 && IndexOf("1") == 1;
    LoopTranslates([T.NewGuard("0", false), T.NewGuard("1", true)], [E.NewGuard(0, false), E.NewGuard(1, true)]);
  }
}

module ParserCases {
  import T = Trees
  import E = Expressions
  import Parser
  import Syntax

  /** Text that prints `parts` parses to the expected tree. */
  lemma ParsesTo(parts: seq<E.Expression>, text: string, expected: seq<T.Node>)
    requires Syntax.PrintableParts(parts) && Syntax.ShowParts(parts) == text
    requires |expected| == |parts|
    requires forall k :: 0 <= k < |parts| ==> Syntax.CanonNode(parts[k], 1) == expected[k]
    ensures Parser.ParseText(text) == T.NewTree(expected)
  {
    Syntax.ParseShown(parts);
    assert Syntax.CanonNodes(parts, 1) == expected;
  }

  lemma SmallNumerals()
    ensures Syntax.DecimalText(0) == "0" && Syntax.DecimalText(1) == "1"
  {
    assert Syntax.Digit(0) == '0' && Syntax.Digit(1) == '1';
  }

  /** The body `0-;` of the loops below prints and parses back. */
  lemma BodyCanon()
    ensures var body := [E.Instruction(0, '-'), E.Exec];
            Syntax.PrintableParts(body) && Syntax.CanonNodes(body, 1) == [T.NewSymbol("0-", 1), T.NewExec(1)]
  {
    SmallNumerals();
    var body := [E.Instruction(0, '-'), E.Exec];
    assert Syntax.CanonNode(body[0], 1) == T.NewSymbol("0-", 1);
  }

  /** `single`. */
  lemma Single()
    ensures Parser.ParseText("0+;") == T.NewTree([T.NewSymbol("0+", 1), T.NewExec(1)])
  {
    SmallNumerals();
    ParsesTo([E.Instruction(0, '+'), E.Exec], "0+;", [T.NewSymbol("0+", 1), T.NewExec(1)]);
  }

  /** Stripping a blank-separated pair strips each side. */
  lemma StripSpaced(x: string, y: string, sx: string, sy: string)
    requires Parser.Strip(x) == sx && Parser.Strip(y) == sy
    ensures Parser.Strip(x + " " + y) == sx + sy
  {
    assert Parser.Strip(" ") == "";
    Parser.StripConcat(x, " ");
    Parser.StripConcat(x + " ", y);
  }

  /** Four blank-free words separated by single spaces strip to their concatenation. */
  lemma StripFour(a: string, b: string, c: string, d: string)
    requires Parser.Strip(a) == a && Parser.Strip(b) == b && Parser.Strip(c) == c && Parser.Strip(d) == d
    ensures Parser.Strip(a + " " + b + " " + c + " " + d) == a + b + c + d
  {
    StripSpaced(a, b, a, b);
    StripSpaced(a + " " + b, c, a + b, c);
    StripSpaced(a + " " + b + " " + c, d, a + b + c, d);
  }

  lemma MultipleWords()
    ensures Parser.Strip("0+") == "0+" && Parser.Strip("1+") == "1+"
    ensures Parser.Strip("123+") == "123+" && Parser.Strip("321o;") == "321o;"
  {
    Parser.StripBlankFree("0+");
    Parser.StripBlankFree("1+");
    Parser.StripBlankFree("123+");
    Parser.StripBlankFree("321o;");
  }

  lemma MultipleJoined()
    ensures "0+ 1+ 123+ 321o;" == "0+" + " " + "1+" + " " + "123+" + " " + "321o;"
    ensures "0+1+123+321o;" == "0+" + "1+" + "123+" + "321o;"
  {
  }

  lemma MultipleStrip(input: string, stripped: string)
    requires input == "0+ 1+ 123+ 321o;" && stripped == "0+1+123+321o;"
    ensures Parser.Strip(input) == stripped
  {
    MultipleWords();
    MultipleJoined();
    StripFour("0+", "1+", "123+", "321o;");
  }

  lemma LargeNumerals()
    ensures Syntax.DecimalText(123) == "123" && Syntax.DecimalText(321) == "321"
  {
    assert Syntax.DecimalText(12) == "12" && Syntax.DecimalText(32) == "32";
  }

  function MultipleParts(): seq<E.Expression>
  {
    [E.Instruction(0, '+'), E.Instruction(1, '+'), E.Instruction(123, '+'), E.Instruction(321, 'o'), E.Exec]
  }

  function MultipleTree(): T.Tree
  {
    T.NewTree([T.NewSymbol("0+", 1), T.NewSymbol("1+", 1), T.NewSymbol("123+", 1), T.NewSymbol("321o", 1), T.NewExec(1)])
  }

  lemma MultipleShown()
    ensures Syntax.PrintableParts(MultipleParts()) && Syntax.ShowParts(MultipleParts()) == "0+1+123+321o;"
  {
    SmallNumerals();
    LargeNumerals();
  }

  lemma MultipleCanon()
    ensures forall k :: 0 <= k < |MultipleParts()| ==> Syntax.CanonNode(MultipleParts()[k], 1) == MultipleTree().nodes[k]
  {
    SmallNumerals();
    LargeNumerals();
  }

  lemma MultipleStripped(text: string)
    requires text == "0+1+123+321o;"
    ensures Parser.ParseText(text) == MultipleTree()
  {
    MultipleShown();
    MultipleCanon();
    ParsesTo(MultipleParts(), text, MultipleTree().nodes);
  }

  /** `multiple`: spaces separate nothing; multi-digit indices and any pool character. */
  lemma Multiple()
    ensures Parser.ParseText("0+ 1+ 123+ 321o;") == MultipleTree()
  {
    MultipleStrip("0+ 1+ 123+ 321o;", "0+1+123+321o;");
    Parser.ParseIgnoresBlanks("0+ 1+ 123+ 321o;");
    MultipleStripped("0+1+123+321o;");
  }

  /** `debug` of five symbols on one line: their texts in order, separated by ", ". */
  lemma FiveSymbolsDebug(a: string, b: string, c: string, d: string, e: string, line: int)
    ensures Parser.DebugText(T.NewTree([T.NewSymbol(a, line), T.NewSymbol(b, line), T.NewSymbol(c, line), T.NewSymbol(d, line), T.NewSymbol(e, line)]))
            == "(" + a + ", " + b + ", " + c + ", " + d + ", " + e + ")"
  {
    var t := T.NewTree([T.NewSymbol(a, line), T.NewSymbol(b, line), T.NewSymbol(c, line), T.NewSymbol(d, line), T.NewSymbol(e, line)]);
    assert Parser.DebugItems(t, 1) == a;
    assert Parser.DebugItems(t, 2) == a + ", " + b;
    assert Parser.DebugItems(t, 3) == a + ", " + b + ", " + c;
    assert Parser.DebugItems(t, 4) == a + ", " + b + ", " + c + ", " + d;
    assert Parser.DebugItems(t, 5) == a + ", " + b + ", " + c + ", " + d + ", " + e;
  }

  /** `debug` of the `multiple` tree: each symbol's text, separated by ", ". */
  lemma MultipleDebug()
    ensures Parser.DebugText(MultipleTree()) == "(0+, 1+, 123+, 321o, ;)"
  {
    FiveSymbolsDebug("0+", "1+", "123+", "321o", ";", 1);
  }

  /** The tree of `0+{guards|0-;};`. */
  function LoopTree(guards: seq<T.Guard>): T.Tree
  {
    T.NewTree([T.NewSymbol("0+", 1), T.NewLoop(guards, T.NewTree([T.NewSymbol("0-", 1), T.NewExec(1)])), T.NewExec(1)])
  }

  /** `0+{guards|0-;};` parses to `LoopTree`, for any printable guard list. */
  lemma LoopParses(guards: seq<E.Guard>, shown: string, canon: seq<T.Guard>, text: string)
    requires Syntax.PrintableGuards(guards) && Syntax.ShowGuards(guards) == shown && Syntax.CanonGuards(guards) == canon
    requires text == "0+{" + shown + "|0-;};"
    ensures Parser.ParseText(text) == LoopTree(canon)
  {
    var body := [E.Instruction(0, '-'), E.Exec];
    var loop := E.Loop(guards, E.Closure(body));
    var parts := [E.Instruction(0, '+'), loop, E.Exec];
    SmallNumerals();
    BodyCanon();
    assert Syntax.ShowParts(body) == "0-;";
    assert Syntax.Show(loop) == "{" + shown + "|" + "0-;" + "}";
    assert Syntax.ShowParts(parts) == "0+" + (Syntax.Show(loop) + (";" + ""));
    assert Syntax.ShowParts(parts) == text;
    ParsesTo(parts, text, LoopTree(canon).nodes);
  }

  /** `debug` of a symbol, a loop over two symbols and a symbol: the loop shows as its body's list, never its guards. */
  lemma LoopBetweenDebug(a: string, b: string, c: string, d: string, guards: seq<T.Guard>, line: int)
    ensures Parser.DebugText(T.NewTree([T.NewSymbol(a, line), T.NewLoop(guards, T.NewTree([T.NewSymbol(b, line), T.NewSymbol(c, line)])), T.NewSymbol(d, line)]))
            == "(" + a + ", " + ("(" + b + ", " + c + ")") + ", " + d + ")"
  {
    var body := T.NewTree([T.NewSymbol(b, line), T.NewSymbol(c, line)]);
    var t := T.NewTree([T.NewSymbol(a, line), T.NewLoop(guards, body), T.NewSymbol(d, line)]);
    assert Parser.DebugItems(body, 1) == b;
    assert Parser.DebugItems(body, 2) == b + ", " + c;
    assert Parser.DebugItem(t.nodes[1]) == "(" + b + ", " + c + ")";
    assert Parser.DebugItems(t, 1) == a;
    assert Parser.DebugItems(t, 2) == a + ", " + ("(" + b + ", " + c + ")");
    assert Parser.DebugItems(t, 3) == a + ", " + ("(" + b + ", " + c + ")") + ", " + d;
  }

  /** `debug` of `0+{guards|0-;};` is `(0+, (0-, ;), ;)`, whatever the guards. */
  lemma LoopDebug(guards: seq<T.Guard>)
    ensures Parser.DebugText(LoopTree(guards)) == "(0+, (0-, ;), ;)"
  {
    LoopBetweenDebug("0+", "0-", ";", ";", guards, 1);
    assert "(" + "0+" + ", " + ("(" + "0-" + ", " + ";" + ")") + ", " + ";" + ")" == "(0+, (0-, ;), ;)";
  }

  lemma SingleGuard(negated: bool)
    ensures var g := [E.Guard(0, negated)];
            Syntax.PrintableGuards(g) && Syntax.ShowGuards(g) == (if negated then "!0" else "0")
            && Syntax.CanonGuards(g) == [T.NewGuard("0", negated)]
  {
    SmallNumerals();
  }

  /** `nested`. */
  lemma Nested()
    ensures Parser.ParseText("0+{0|0-;};") == LoopTree([T.NewGuard("0", false)])
  {
    SingleGuard(false);
    LoopParses([E.Guard(0, false)], "0", [T.NewGuard("0", false)], "0+{0|0-;};");
  }

  /** `negated`: `!` marks the guard negated. */
  lemma Negated()
    ensures Parser.ParseText("0+{!0|0-;};") == LoopTree([T.NewGuard("0", true)])
  {
    SingleGuard(true);
    LoopParses([E.Guard(0, true)], "!0", [T.NewGuard("0", true)], "0+{!0|0-;};");
  }

  lemma TwoGuards()
    ensures var g := [E.Guard(0, false), E.Guard(1, true)];
            Syntax.PrintableGuards(g) && Syntax.ShowGuards(g) == "0,!1"
            && Syntax.CanonGuards(g) == [T.NewGuard("0", false), T.NewGuard("1", true)]
  {
    SmallNumerals();
    var g := [E.Guard(0, false), E.Guard(1, true)];
    assert g[1..] == [E.Guard(1, true)];
  }

  /** `multiple_guards`: `,` separates guards. */
  lemma MultipleGuards()
    ensures Parser.ParseText("0+{0,!1|0-;};") == LoopTree([T.NewGuard("0", false), T.NewGuard("1", true)])
  {
    TwoGuards();
    LoopParses([E.Guard(0, false), E.Guard(1, true)], "0,!1", [T.NewGuard("0", false), T.NewGuard("1", true)], "0+{0,!1|0-;};");
  }

  // Quirks of the scanner

  /** Digits pending before a loop are not cleared by it: they join the token after the loop. */
  lemma {:induction false} PendingDigitsCrossLoop(d: string, loop: E.Expression, c: char)
    requires Parser.AllDigits(d) && loop.Loop? && Syntax.Printable(loop) && Syntax.PoolChar(c)
    ensures Parser.ParseText(d + Syntax.Show(loop) + [c]) == T.Tree([Syntax.CanonNode(loop, 1), T.Symbol(d + [c], 1)])
  {
    var after := Syntax.Show(loop) + [c];
    assert d + Syntax.Show(loop) + [c] == d + after;
    Syntax.ScanLevelDigits(d, after, T.Empty(), "", 1);
    assert "" + d == d;
    Syntax.ScanShownLoop(loop.guard, loop.closure, [c], T.Empty(), d, 1);
    var tree := T.Tree([] + [Syntax.CanonNode(loop, 1)]);
    assert [c][0] == c && [c][1..] == [];
    assert Parser.ScanLevel([c], tree, d, 1) == Parser.ScanLevel([], tree.Push(T.NewSymbol(d + [c], 1)), "", 1);
  }

  /** Digits still pending at the end of the input are dropped. */
  lemma {:induction false} TrailingDigitsDropped(parts: seq<E.Expression>, d: string)
    requires Syntax.PrintableParts(parts) && Parser.AllDigits(d)
    ensures Parser.ParseText(Syntax.ShowParts(parts) + d) == Parser.ParseText(Syntax.ShowParts(parts))
  {
    var tree := T.Tree([] + Syntax.CanonNodes(parts, 1));
    Syntax.ScanShown(parts, d, T.Empty(), 1);
    Syntax.ScanLevelDigits(d, "", tree, "", 1);
    assert d + "" == d;
    Syntax.ScanShown(parts, "", T.Empty(), 1);
    assert Syntax.ShowParts(parts) + "" == Syntax.ShowParts(parts);
  }

  /**
   * A `}` with no loop open ends the whole parse: the digits pending before it
   * and everything after it are dropped.
   */
  lemma {:induction false} StrayBraceEndsParse(parts: seq<E.Expression>, d: string, rest: string)
    requires Syntax.PrintableParts(parts) && Parser.AllDigits(d)
    ensures Parser.ParseText(Syntax.ShowParts(parts) + d + "}" + rest) == Parser.ParseText(Syntax.ShowParts(parts))
  {
    var shown := Syntax.ShowParts(parts);
    var tail := d + ("}" + rest);
    var tree := T.Tree([] + Syntax.CanonNodes(parts, 1));
    assert shown + d + "}" + rest == shown + tail;
    Syntax.ScanShown(parts, tail, T.Empty(), 1);
    StrayBrace(tree, d, rest);
    Syntax.ScanShown(parts, "", T.Empty(), 1);
    assert shown + "" == shown;
  }

  /** The scan of pending digits followed by a `}` stops at that brace. */
  lemma StrayBrace(tree: T.Tree, d: string, rest: string)
    requires Parser.AllDigits(d)
    ensures Parser.ScanLevel(d + ("}" + rest), tree, "", 1) == Parser.Scanned(tree, rest)
  {
    Syntax.ScanLevelDigits(d, "}" + rest, tree, "", 1);
    assert ("}" + rest)[0] == '}' && ("}" + rest)[1..] == rest;
  }
}
