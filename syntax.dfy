/**
 * The concrete syntax of programs, as a printer from closures back to text:
 *
 *   item  := digit+ poolchar | ";" | "{" guard ("," guard)* "|" item* "}"
 *   guard := "!"? digit+
 *
 * The front end (parser then translator, src/lagoon/parser.rs and
 * src/lagoon/interpreter/mod.rs) is proved to invert this printer on every
 * closure it can print: indices within `0..=i32::MAX`, pool characters that
 * end a token, non-empty guard lists.
 */
module Syntax {
  import T = Trees
  import E = Expressions
  import Parser
  import Interpreter

  function Digit(d: nat): (c: char)
    requires d < 10
    ensures Parser.IsDigit(c)
  {
    ('0' as int + d) as char
  }

  /** The shortest decimal numeral of `n`. */
  function DecimalText(n: nat): (s: string)
    ensures |s| > 0 && Parser.AllDigits(s)
  {
    if n < 10 then [Digit(n)] else DecimalText(n / 10) + [Digit(n % 10)]
  }

  lemma {:induction false} DecimalValue(n: nat)
    ensures Interpreter.DigitsValue(DecimalText(n)) == n
  {
    if n >= 10 {
      DecimalValue(n / 10);
      var s := DecimalText(n);
      assert s[..|s| - 1] == DecimalText(n / 10);
    }
  }

  /** An index printed in decimal is read back as itself by `parse::<i32>`. */
  lemma DecimalIndex(n: nat)
    requires n <= Interpreter.I32Max
    ensures Interpreter.IndexOf(DecimalText(n)) == n
  {
    DecimalValue(n);
  }

  /** A numeral too large for `i32` does not parse, and the index falls back to 0. */
  lemma OverlongIndexDefaults(n: nat)
    requires n > Interpreter.I32Max
    ensures Interpreter.IndexOf(DecimalText(n)) == 0
  {
    DecimalValue(n);
  }

  /** A character that ends a token and names a pool (`;` would make it an exec). */
  predicate PoolChar(c: char)
  {
    !Parser.IsDigit(c) && !Parser.IsBlank(c) && c != '\n' && c != '{' && c != '}' && c != ';'
  }

  predicate PrintableIndex(i: int) { 0 <= i <= Interpreter.I32Max }

  predicate PrintableGuards(guards: seq<E.Guard>)
  {
    |guards| > 0 && forall k :: 0 <= k < |guards| ==> PrintableIndex(guards[k].index)
  }

  predicate Printable(e: E.Expression)
    decreases e
  {
    match e
    case Exec => true
    case Instruction(index, pool) => PrintableIndex(index) && PoolChar(pool)
    case Loop(guard, body) => PrintableGuards(guard) && PrintableParts(body.parts)
  }

  predicate PrintableParts(parts: seq<E.Expression>)
    decreases parts
  {
    forall k :: 0 <= k < |parts| ==> Printable(parts[k])
  }

  function ShowGuard(g: E.Guard): string
    requires PrintableIndex(g.index)
  {
    (if g.negated then "!" else "") + DecimalText(g.index)
  }

  function ShowGuards(guards: seq<E.Guard>): string
    requires PrintableGuards(guards)
  {
    ShowGuard(guards[0]) + if |guards| == 1 then "" else "," + ShowGuards(guards[1..])
  }

  function Show(e: E.Expression): string
    requires Printable(e)
    decreases e
  {
    match e
    case Exec => ";"
    case Instruction(index, pool) => DecimalText(index) + [pool]
    case Loop(guard, body) => "{" + ShowGuards(guard) + "|" + ShowParts(body.parts) + "}"
  }

  function ShowParts(parts: seq<E.Expression>): string
    requires PrintableParts(parts)
    decreases parts
  {
    if parts == [] then "" else Show(parts[0]) + ShowParts(parts[1..])
  }

  /** Printing distributes over concatenation of expression lists. */
  lemma {:induction false} ShowConcat(a: seq<E.Expression>, b: seq<E.Expression>)
    requires PrintableParts(a) && PrintableParts(b)
    ensures PrintableParts(a + b)
    ensures ShowParts(a + b) == ShowParts(a) + ShowParts(b)
    decreases a
  {
    assert forall k :: 0 <= k < |a + b| ==> (a + b)[k] == if k < |a| then a[k] else b[k - |a|];
    if a != [] {
      assert (a + b)[1..] == a[1..] + b;
      ShowConcat(a[1..], b);
    } else {
      assert a + b == b;
    }
  }

  /** The syntax-tree guard the parser builds for a printed guard. */
  function CanonGuard(g: E.Guard): T.Guard
    requires PrintableIndex(g.index)
  {
    T.Guard(DecimalText(g.index), g.negated)
  }

  function CanonGuards(guards: seq<E.Guard>): (r: seq<T.Guard>)
    requires forall k :: 0 <= k < |guards| ==> PrintableIndex(guards[k].index)
    ensures |r| == |guards|
    ensures forall k :: 0 <= k < |guards| ==> r[k] == CanonGuard(guards[k])
  {
    if guards == [] then [] else [CanonGuard(guards[0])] + CanonGuards(guards[1..])
  }

  /** The syntax-tree node the parser builds for a printed expression on line `line`. */
  function CanonNode(e: E.Expression, line: int): T.Node
    requires Printable(e)
    decreases e
  {
    match e
    case Exec => T.Symbol(";", line)
    case Instruction(index, pool) => T.Symbol(DecimalText(index) + [pool], line)
    case Loop(guard, body) =>
      assert PrintableParts(body.parts);
      T.Loop(CanonGuards(guard), T.Tree(CanonNodes(body.parts, line)))
  }

  function CanonNodes(parts: seq<E.Expression>, line: int): (r: seq<T.Node>)
    requires PrintableParts(parts)
    ensures |r| == |parts|
    ensures forall k :: 0 <= k < |parts| ==> r[k] == CanonNode(parts[k], line)
    decreases parts, 0
  {
    if parts == [] then [] else [CanonNode(parts[0], line)] + CanonNodes(parts[1..], line)
  }

  // ---------------------------------------------------------------------
  // Scanning printed text

  /** Digits only accumulate into the pending token. */
  lemma {:induction false} ScanLevelDigits(d: string, rest: string, tree: T.Tree, current: string, line: int)
    requires Parser.AllDigits(d)
    ensures Parser.ScanLevel(d + rest, tree, current, line) == Parser.ScanLevel(rest, tree, current + d, line)
    decreases |d|
  {
    if d == [] {
      assert d + rest == rest && current + d == current;
    } else {
      assert (d + rest)[0] == d[0] && (d + rest)[1..] == d[1..] + rest;
      ScanLevelDigits(d[1..], rest, tree, current + [d[0]], line);
      assert current + [d[0]] + d[1..] == current + d;
    }
  }

  /** Digits only accumulate into the pending guard text. */
  lemma {:induction false} ScanGuardsDigits(d: string, rest: string, guards: seq<T.Guard>, text: string, negated: bool)
    requires Parser.AllDigits(d)
    ensures Parser.ScanGuards(d + rest, guards, text, negated) == Parser.ScanGuards(rest, guards, text + d, negated)
    decreases |d|
  {
    if d == [] {
      assert d + rest == rest && text + d == text;
    } else {
      assert (d + rest)[0] == d[0] && (d + rest)[1..] == d[1..] + rest;
      ScanGuardsDigits(d[1..], rest, guards, text + [d[0]], negated);
      assert text + [d[0]] + d[1..] == text + d;
    }
  }

  lemma ScanGuard(g: E.Guard, rest: string, guards: seq<T.Guard>)
    requires PrintableIndex(g.index)
    ensures Parser.ScanGuards(ShowGuard(g) + rest, guards, "", false)
         == Parser.ScanGuards(rest, guards, DecimalText(g.index), g.negated)
  {
    var d := DecimalText(g.index);
    if g.negated {
      var s := ShowGuard(g) + rest;
      assert s[0] == '!' && s[1..] == d + rest;
      ScanGuardsDigits(d, rest, guards, "", true);
    } else {
      assert ShowGuard(g) + rest == d + rest;
      ScanGuardsDigits(d, rest, guards, "", false);
    }
    assert "" + d == d;
  }

  /** A printed guard list followed by `|` scans back to its guards, and stops right after the `|`. */
  lemma {:induction false} ScanShownGuards(gs: seq<E.Guard>, rest: string, guards: seq<T.Guard>)
    requires PrintableGuards(gs)
    ensures Parser.ScanGuards(ShowGuards(gs) + "|" + rest, guards, "", false)
         == Parser.Scanned(guards + CanonGuards(gs), rest)
    decreases |gs|
  {
    var g := gs[0];
    var d := DecimalText(g.index);
    if |gs| == 1 {
      assert ShowGuards(gs) + "|" + rest == ShowGuard(g) + ("|" + rest);
      ScanGuard(g, "|" + rest, guards);
      assert ("|" + rest)[0] == '|' && ("|" + rest)[1..] == rest;
      assert CanonGuards(gs) == [T.Guard(d, g.negated)];
    } else {
      var tail := ShowGuards(gs[1..]) + "|" + rest;
      assert ShowGuards(gs) + "|" + rest == ShowGuard(g) + ("," + tail);
      ScanGuard(g, "," + tail, guards);
      assert ("," + tail)[0] == ',' && ("," + tail)[1..] == tail;
      ScanShownGuards(gs[1..], rest, guards + [T.Guard(d, g.negated)]);
      assert CanonGuards(gs) == [T.Guard(d, g.negated)] + CanonGuards(gs[1..]);
      assert guards + [T.Guard(d, g.negated)] + CanonGuards(gs[1..]) == guards + CanonGuards(gs);
    }
  }

  /**
   * Printed expressions scan back, at any nesting level, to their canonical
   * nodes, consuming exactly their text.
   */
  lemma {:induction false} ScanShown(parts: seq<E.Expression>, rest: string, tree: T.Tree, line: int)
    requires PrintableParts(parts)
    ensures Parser.ScanLevel(ShowParts(parts) + rest, tree, "", line)
         == Parser.ScanLevel(rest, T.Tree(tree.nodes + CanonNodes(parts, line)), "", line)
    decreases parts, 0
  {
    if parts == [] {
      assert ShowParts(parts) + rest == rest;
      assert tree.nodes + CanonNodes(parts, line) == tree.nodes;
    } else {
      var e := parts[0];
      var after := ShowParts(parts[1..]) + rest;
      assert ShowParts(parts) + rest == Show(e) + after;
      var node := CanonNode(e, line);
      ScanShownOne(e, after, tree, line);
      assert PrintableParts(parts[1..]);
      ScanShown(parts[1..], rest, T.Tree(tree.nodes + [node]), line);
      assert CanonNodes(parts, line) == [node] + CanonNodes(parts[1..], line);
      assert tree.nodes + [node] + CanonNodes(parts[1..], line) == tree.nodes + CanonNodes(parts, line);
    }
  }

  lemma {:induction false} ScanShownOne(e: E.Expression, rest: string, tree: T.Tree, line: int)
    requires Printable(e)
    ensures Parser.ScanLevel(Show(e) + rest, tree, "", line)
         == Parser.ScanLevel(rest, T.Tree(tree.nodes + [CanonNode(e, line)]), "", line)
    decreases e, 1
  {
    match e
    case Exec =>
      var s := Show(e) + rest;
      assert s[0] == ';' && s[1..] == rest;
      assert "" + [';'] == ";";
    case Instruction(index, pool) =>
      ScanShownInstruction(index, pool, rest, tree, line);
    case Loop(guard, body) =>
      ScanShownLoop(guard, body, rest, tree, "", line);
  }

  lemma ScanShownInstruction(index: int, pool: char, rest: string, tree: T.Tree, line: int)
    requires Printable(E.Instruction(index, pool))
    ensures Parser.ScanLevel(Show(E.Instruction(index, pool)) + rest, tree, "", line)
         == Parser.ScanLevel(rest, T.Tree(tree.nodes + [T.Symbol(DecimalText(index) + [pool], line)]), "", line)
  {
    var d := DecimalText(index);
    assert Show(E.Instruction(index, pool)) + rest == d + ([pool] + rest);
    ScanLevelDigits(d, [pool] + rest, tree, "", line);
    assert ([pool] + rest)[0] == pool && ([pool] + rest)[1..] == rest;
    assert "" + d == d;
  }

  /** A printed loop scans back to its canonical node, whatever digits are pending (they wait for after it). */
  lemma {:induction false} ScanShownLoop(guard: seq<E.Guard>, body: E.Closure, rest: string, tree: T.Tree, current: string, line: int)
    requires Printable(E.Loop(guard, body))
    ensures Parser.ScanLevel(Show(E.Loop(guard, body)) + rest, tree, current, line)
         == Parser.ScanLevel(rest, T.Tree(tree.nodes + [CanonNode(E.Loop(guard, body), line)]), current, line)
    decreases E.Loop(guard, body), 0
  {
    var bodyText := ShowParts(body.parts) + "}" + rest;
    var afterBrace := ShowGuards(guard) + "|" + bodyText;
    ShowLoopText(guard, body, rest);
    ScanOpen(afterBrace, tree, current, line);
    ScanShownGuards(guard, bodyText, []);
    assert [] + CanonGuards(guard) == CanonGuards(guard);
    ScanBody(body.parts, rest, line);
    CanonLoop(guard, body, line);
  }

  lemma ShowLoopText(guard: seq<E.Guard>, body: E.Closure, rest: string)
    requires Printable(E.Loop(guard, body))
    ensures PrintableGuards(guard) && PrintableParts(body.parts)
    ensures Show(E.Loop(guard, body)) + rest == "{" + (ShowGuards(guard) + "|" + (ShowParts(body.parts) + "}" + rest))
  {
  }

  lemma CanonLoop(guard: seq<E.Guard>, body: E.Closure, line: int)
    requires Printable(E.Loop(guard, body))
    ensures PrintableParts(body.parts)
    ensures CanonNode(E.Loop(guard, body), line) == T.NewLoop(CanonGuards(guard), T.Tree(CanonNodes(body.parts, line)))
  {
  }

  /** At `{` the scanner reads the guards, then the body, then goes on after the body. */
  lemma ScanOpen(afterBrace: string, tree: T.Tree, current: string, line: int)
    ensures var g := Parser.ScanGuards(afterBrace, [], "", false);
            var b := Parser.ScanLevel(g.rest, T.Empty(), "", line);
            Parser.ScanLevel("{" + afterBrace, tree, current, line)
              == Parser.ScanLevel(b.rest, tree.Push(T.NewLoop(g.value, b.value)), current, line)
  {
    var s := "{" + afterBrace;
    assert s[0] == '{' && s[1..] == afterBrace;
  }

  /** A printed loop body followed by `}` scans back to its canonical tree and stops after the `}`. */
  lemma {:induction false} ScanBody(parts: seq<E.Expression>, rest: string, line: int)
    requires PrintableParts(parts)
    ensures Parser.ScanLevel(ShowParts(parts) + "}" + rest, T.Empty(), "", line)
         == Parser.Scanned(T.Tree(CanonNodes(parts, line)), rest)
    decreases parts, 1
  {
    assert ShowParts(parts) + "}" + rest == ShowParts(parts) + ("}" + rest);
    ScanShown(parts, "}" + rest, T.Empty(), line);
    assert [] + CanonNodes(parts, line) == CanonNodes(parts, line);
    assert ("}" + rest)[0] == '}' && ("}" + rest)[1..] == rest;
  }

  /** Parsing printed text gives the canonical tree, every node on line 1. */
  lemma ParseShown(parts: seq<E.Expression>)
    requires PrintableParts(parts)
    ensures Parser.ParseText(ShowParts(parts)) == T.Tree(CanonNodes(parts, 1))
  {
    ScanShown(parts, "", T.Tree([]), 1);
    assert ShowParts(parts) + "" == ShowParts(parts);
    assert [] + CanonNodes(parts, 1) == CanonNodes(parts, 1);
  }

  // ---------------------------------------------------------------------
  // Translating canonical trees

  lemma {:induction false} TranslateCanon(e: E.Expression, line: int)
    requires Printable(e)
    ensures Interpreter.Translatable(CanonNode(e, line))
    ensures Interpreter.Translate(CanonNode(e, line)) == e
    decreases e
  {
    match e
    case Exec =>
    case Instruction(index, pool) =>
      var text := DecimalText(index) + [pool];
      assert text[..|text| - 1] == DecimalText(index);
      DecimalIndex(index);
    case Loop(guard, body) =>
      var n := CanonNode(e, line);
      var nodes := CanonNodes(body.parts, line);
      forall k | 0 <= k < |nodes|
        ensures Interpreter.Translatable(nodes[k]) && Interpreter.Translate(nodes[k]) == body.parts[k]
      {
        TranslateCanon(body.parts[k], line);
      }
      forall k | 0 <= k < |guard|
        ensures Interpreter.TranslateGuard(CanonGuards(guard)[k]) == guard[k]
      {
        DecimalIndex(guard[k].index);
      }
      var t := Interpreter.Translate(n);
      assert t.guard == guard;
      assert t.closure.parts == body.parts;
  }

  lemma TranslateCanonNodes(parts: seq<E.Expression>, line: int)
    requires PrintableParts(parts)
    ensures Interpreter.TranslatableNodes(CanonNodes(parts, line))
    ensures Interpreter.Interpret(T.Tree(CanonNodes(parts, line))) == E.Closure(parts)
  {
    var nodes := CanonNodes(parts, line);
    forall k | 0 <= k < |nodes|
      ensures Interpreter.Translatable(nodes[k]) && Interpreter.Translate(nodes[k]) == parts[k]
    {
      TranslateCanon(parts[k], line);
    }
    assert Interpreter.Interpret(T.Tree(nodes)).parts == parts;
  }

  /** The front end inverts the printer: compiling printed text gives back the closure. */
  lemma CompileShown(parts: seq<E.Expression>)
    requires PrintableParts(parts)
    ensures Interpreter.Compile(ShowParts(parts)) == E.Closure(parts)
  {
    ParseShown(parts);
    TranslateCanonNodes(parts, 1);
  }
}
