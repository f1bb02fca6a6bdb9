/**
 * The character-level parser (src/lagoon/parser.rs).
 *
 * The source scans a shared `Chars` iterator; here the iterator is the input
 * string together with the position of the next unread character, which each
 * scanner receives and hands back.  `ScanLevel` and `ScanGuards` define what
 * one level of `rparse` and one run of `find_guard` compute; the methods
 * `RParse` and `FindGuard` are the loops of the source, proved equal to them.
 */
module Parser {
  import opened Trees

  predicate IsDigit(c: char) { '0' <= c <= '9' }

  predicate IsBlank(c: char) { c == ' ' || c == '\t' }

  predicate AllDigits(s: string) { forall k :: 0 <= k < |s| ==> IsDigit(s[k]) }

  /**
   * The result of a scan: what it built and the input it left unread (the
   * `Chars` iterator of the source is the not yet consumed rest of the text).
   */
  datatype Scanned<T> = Scanned(value: T, rest: string)

  /** `r` is what remains of `s` once some prefix has been consumed. */
  predicate Consumed(s: string, r: string)
  {
    |r| <= |s| && r == s[|s| - |r|..]
  }

  /** What `find_guard` returns when it reads `s` with `guards` committed and `text`/`negated` pending. */
  function ScanGuards(s: string, guards: seq<Guard>, text: string, negated: bool): (r: Scanned<seq<Guard>>)
    ensures Consumed(s, r.rest)
    decreases |s|
  {
    if s == [] then Scanned(guards, s)
    else
      var c := s[0];
      if IsBlank(c) then ScanGuards(s[1..], guards, text, negated)
      else if c == '|' then Scanned(guards + [Guard(text, negated)], s[1..])
      else if c == '\n' then ScanGuards(s[1..], guards, text, negated)
      else if c == ',' then ScanGuards(s[1..], guards + [Guard(text, negated)], "", false)
      else if c == '!' then ScanGuards(s[1..], guards, text, true)
      else if !IsDigit(c) then ScanGuards(s[1..], guards, text, negated)
      else ScanGuards(s[1..], guards, text + [c], negated)
  }

  /**
   * What `rparse` returns when it reads `s` with `tree` built so far,
   * `current` pending digits and line counter `line`.
   */
  function ScanLevel(s: string, tree: Tree, current: string, line: int): (r: Scanned<Tree>)
    ensures Consumed(s, r.rest)
    decreases |s|
  {
    if s == [] then Scanned(tree, s)
    else
      var c := s[0];
      if IsBlank(c) then ScanLevel(s[1..], tree, current, line)
      else if c == '\n' then ScanLevel(s[1..], tree, current, line + 1)
      else if c == '{' then
        var guard := ScanGuards(s[1..], [], "", false);
        var body := ScanLevel(guard.rest, Empty(), "", line);
        ScanLevel(body.rest, tree.Push(NewLoop(guard.value, body.value)), current, line)
      else if c == '}' then Scanned(tree, s[1..])
      else if IsDigit(c) then ScanLevel(s[1..], tree, current + [c], line)
      else ScanLevel(s[1..], tree.Push(NewSymbol(current + [c], line)), "", line)
  }

  /** The tree `parse` returns for `input`. */
  function ParseText(input: string): Tree
  {
    ScanLevel(input, Empty(), "", 1).value
  }

  /** `find_guard`: reads guards up to and including `|`, or to the end of the input. */
  method FindGuard(chars: string) returns (guards: seq<Guard>, rest: string)
    ensures Scanned(guards, rest) == ScanGuards(chars, [], "", false)
  {
    guards := [];
    var text := "";
    var negated := false;
    rest := chars;
    while rest != []
      invariant ScanGuards(rest, guards, text, negated) == ScanGuards(chars, [], "", false)
      decreases |rest|
    {
      var c := rest[0];
      rest := rest[1..];
      if IsBlank(c) { continue; }
      if c == '|' {
        guards := guards + [Guard(text, negated)];
        break;
      }
      if c == '\n' {
        // the line counter of `find_guard` is never read
      } else if c == ',' {
        guards := guards + [Guard(text, negated)];
        text := "";
        negated := false;
      } else if c == '!' {
        negated := true;
      } else if !IsDigit(c) {
        // any other character is dropped without an error
      } else {
        text := text + [c];
      }
    }
  }

  /** `rparse`: one nesting level, up to and including its `}` or to the end of the input. */
  method RParse(tree0: Tree, chars: string, line0: int) returns (tree: Tree, rest: string)
    ensures Scanned(tree, rest) == ScanLevel(chars, tree0, "", line0)
    decreases |chars|
  {
    tree := tree0;
    var line := line0;
    var current := "";
    rest := chars;
    while rest != []
      invariant Consumed(chars, rest)
      invariant ScanLevel(rest, tree, current, line) == ScanLevel(chars, tree0, "", line0)
      decreases |rest|
    {
      var c := rest[0];
      rest := rest[1..];
      if IsBlank(c) { continue; }
      if c == '\n' {
        line := line + 1;
      } else if c == '{' {
        var guard;
        guard, rest := FindGuard(rest);
        var body;
        body, rest := RParse(Empty(), rest, line);
        tree := tree.Push(NewLoop(guard, body));
      } else if c == '}' {
        return;
      } else if IsDigit(c) {
        current := current + [c];
      } else {
        current := current + [c];
        tree := tree.Push(NewSymbol(current, line));
        current := "";
      }
    }
  }

  /** `parse`: the whole input, starting on line 1. */
  method Parse(input: string) returns (tree: Tree)
    ensures tree == ParseText(input)
  {
    var rest;
    tree, rest := RParse(Empty(), input, 1);
  }

  /** `debug`: the tree as "(a, b, (c, d))", a loop shown by its body only. */
  function DebugText(tree: Tree): (r: string)
    decreases tree, |tree.nodes| + 1
  {
    "(" + DebugItems(tree, |tree.nodes|) + ")"
  }

  /** The first `k` nodes of `tree`, shown and separated by ", ". */
  function DebugItems(tree: Tree, k: nat): string
    requires k <= |tree.nodes|
    decreases tree, k
  {
    if k == 0 then ""
    else DebugItems(tree, k - 1) + (if k == 1 then "" else ", ") + DebugItem(tree.nodes[k - 1])
  }

  /** A symbol shows its text, a loop its body. */
  function DebugItem(n: Node): string
    decreases n
  {
    match n
    case Symbol(text, _) => text
    case Loop(_, sub) => DebugText(sub)
  }

  /** `debug`, with the `first` flag of the source deciding where a separator goes. */
  method Debug(tree: Tree) returns (output: string)
    ensures output == DebugText(tree)
    decreases tree
  {
    output := "(";
    var first := true;
    for k := 0 to |tree.nodes|
      invariant first <==> k == 0
      invariant output == "(" + DebugItems(tree, k)
    {
      if first { first := false; }
      else { output := output + ", "; }
      var node := tree.nodes[k];
      var item;
      if node.Symbol? {
        item := node.text;
      } else {
        item := Debug(node.tree);
      }
      assert item == DebugItem(node);
      output := output + item;
    }
    output := output + ")";
  }

  // ---------------------------------------------------------------------
  // What the scanners promise

  /** A symbol the scanner emits: pending digits, then the one character that ended them. */
  predicate SymbolText(text: string)
  {
    && |text| > 0
    && AllDigits(text[..|text| - 1])
    && var last := text[|text| - 1];
       !IsDigit(last) && !IsBlank(last) && last != '\n' && last != '{' && last != '}'
  }

  /** Every guard text is made of digits only. */
  predicate GuardTexts(guards: seq<Guard>)
  {
    forall k :: 0 <= k < |guards| ==> AllDigits(guards[k].text)
  }

  predicate WellFormedNode(n: Node)
    decreases n
  {
    match n
    case Symbol(text, _) => SymbolText(text)
    case Loop(guard, tree) =>
      && GuardTexts(guard)
      && WellFormedNodes(tree.nodes)
  }

  predicate WellFormedNodes(nodes: seq<Node>)
    decreases nodes
  {
    forall k :: 0 <= k < |nodes| ==> WellFormedNode(nodes[k])
  }

  /** Every guard text `find_guard` commits is made of digits only. */
  lemma {:induction false} ScanGuardsDigits(s: string, guards: seq<Guard>, text: string, negated: bool)
    requires GuardTexts(guards)
    requires AllDigits(text)
    ensures GuardTexts(ScanGuards(s, guards, text, negated).value)
    decreases |s|
  {
    if s != [] {
      var c := s[0];
      if IsBlank(c) || c == '\n' {
        ScanGuardsDigits(s[1..], guards, text, negated);
      } else if c == '|' {
      } else if c == ',' {
        ScanGuardsDigits(s[1..], guards + [Guard(text, negated)], "", false);
      } else if c == '!' {
        ScanGuardsDigits(s[1..], guards, text, true);
      } else if !IsDigit(c) {
        ScanGuardsDigits(s[1..], guards, text, negated);
      } else {
        ScanGuardsDigits(s[1..], guards, text + [c], negated);
      }
    }
  }

  /**
   * Every symbol the parser emits is non-empty, its last character ended a
   * token and all characters before it are digits; every guard text is digits.
   * In particular no symbol or guard text contains a space or a tab.
   */
  lemma {:induction false} ScanLevelWellFormed(s: string, tree: Tree, current: string, line: int)
    requires WellFormedNodes(tree.nodes)
    requires AllDigits(current)
    ensures WellFormedNodes(ScanLevel(s, tree, current, line).value.nodes)
    decreases |s|
  {
    if s != [] {
      var c := s[0];
      if IsBlank(c) {
        ScanLevelWellFormed(s[1..], tree, current, line);
      } else if c == '\n' {
        ScanLevelWellFormed(s[1..], tree, current, line + 1);
      } else if c == '{' {
        var guard := ScanGuards(s[1..], [], "", false);
        ScanGuardsDigits(s[1..], [], "", false);
        var body := ScanLevel(guard.rest, Empty(), "", line);
        ScanLevelWellFormed(guard.rest, Empty(), "", line);
        assert WellFormedNode(NewLoop(guard.value, body.value));
        ScanLevelWellFormed(body.rest, tree.Push(NewLoop(guard.value, body.value)), current, line);
      } else if c == '}' {
      } else if IsDigit(c) {
        ScanLevelWellFormed(s[1..], tree, current + [c], line);
      } else {
        assert (current + [c])[..|current|] == current;
        ScanLevelWellFormed(s[1..], tree.Push(NewSymbol(current + [c], line)), "", line);
      }
    }
  }

  lemma ParseWellFormed(input: string)
    ensures WellFormedNodes(ParseText(input).nodes)
  {
    ScanLevelWellFormed(input, Empty(), "", 1);
  }

  /** A scan only ever appends: the nodes it started with stay in front, unchanged. */
  lemma {:induction false} ScanLevelExtends(s: string, tree: Tree, current: string, line: int)
    ensures var r := ScanLevel(s, tree, current, line).value;
      |tree.nodes| <= |r.nodes| && r.nodes[..|tree.nodes|] == tree.nodes
    decreases |s|
  {
    if s != [] {
      var c := s[0];
      if IsBlank(c) {
        ScanLevelExtends(s[1..], tree, current, line);
      } else if c == '\n' {
        ScanLevelExtends(s[1..], tree, current, line + 1);
      } else if c == '{' {
        var guard := ScanGuards(s[1..], [], "", false);
        var body := ScanLevel(guard.rest, Empty(), "", line);
        var t := tree.Push(NewLoop(guard.value, body.value));
        ScanLevelExtends(body.rest, t, current, line);
        var r := ScanLevel(body.rest, t, current, line).value;
        assert r.nodes[..|tree.nodes|] == r.nodes[..|t.nodes|][..|tree.nodes|];
      } else if c == '}' {
      } else if IsDigit(c) {
        ScanLevelExtends(s[1..], tree, current + [c], line);
      } else {
        var t := tree.Push(NewSymbol(current + [c], line));
        ScanLevelExtends(s[1..], t, "", line);
        var r := ScanLevel(s[1..], t, "", line).value;
        assert r.nodes[..|tree.nodes|] == r.nodes[..|t.nodes|][..|tree.nodes|];
      }
    }
  }

  /** The part of `s` a scan consumed, given what it left unread. */
  function Eaten(s: string, rest: string): string
    requires |rest| <= |s|
  {
    s[..|s| - |rest|]
  }

  /** `rest` is all of `s`'s text after a `}`, or nothing at all. */
  predicate ClosedBy(s: string, rest: string)
  {
    rest == [] || (|rest| < |s| && s[|s| - |rest| - 1] == '}')
  }

  /**
   * A level ends either at the end of the input or just after a `}`: an
   * unterminated loop silently swallows the rest of the text.
   */
  lemma {:induction false} ScanLevelEnd(s: string, tree: Tree, current: string, line: int)
    ensures ClosedBy(s, ScanLevel(s, tree, current, line).rest)
    decreases |s|
  {
    if s == [] {
    } else if s[0] == '}' {
      ConsumedTail(s);
      assert ScanLevel(s, tree, current, line).rest == s[1..];
    } else {
      var t, tree', current', line' := ScanLevelNext(s, tree, current, line);
      ScanLevelEnd(t, tree', current', line');
      EndsAfterBrace(s, t, ScanLevel(t, tree', current', line').rest);
    }
  }

  /** Any character but `}` leaves the level open: the scan goes on from a shorter suffix. */
  lemma ScanLevelNext(s: string, tree: Tree, current: string, line: int)
      returns (t: string, tree': Tree, current': string, line': int)
    requires s != [] && s[0] != '}'
    ensures Consumed(s, t) && |t| < |s|
    ensures ScanLevel(s, tree, current, line) == ScanLevel(t, tree', current', line')
  {
    var c := s[0];
    ConsumedTail(s);
    if IsBlank(c) {
      t, tree', current', line' := s[1..], tree, current, line;
    } else if c == '\n' {
      t, tree', current', line' := s[1..], tree, current, line + 1;
    } else if c == '{' {
      var guard := ScanGuards(s[1..], [], "", false);
      var body := ScanLevel(guard.rest, Empty(), "", line);
      ConsumedTrans(s, s[1..], guard.rest);
      ConsumedTrans(s, guard.rest, body.rest);
      t, tree', current', line' := body.rest, tree.Push(NewLoop(guard.value, body.value)), current, line;
    } else if IsDigit(c) {
      t, tree', current', line' := s[1..], tree, current + [c], line;
    } else {
      t, tree', current', line' := s[1..], tree.Push(NewSymbol(current + [c], line)), "", line;
    }
  }

  /** What ends a scan of a suffix `t` of `s` just after a `}` ends it in `s` too. */
  lemma EndsAfterBrace(s: string, t: string, r: string)
    requires Consumed(s, t) && |t| < |s| && Consumed(t, r)
    requires ClosedBy(t, r)
    ensures ClosedBy(s, r)
  {
    ConsumedTrans(s, t, r);
  }

  lemma ConsumedTail(s: string)
    requires s != []
    ensures Consumed(s, s[1..])
  {
  }

  /** A suffix of a suffix is a suffix, and the character before it is the same in both. */
  lemma ConsumedTrans(s: string, x: string, r: string)
    requires Consumed(s, x) && Consumed(x, r)
    ensures Consumed(s, r)
    ensures |r| < |x| ==> s[|s| - |r| - 1] == x[|x| - |r| - 1]
  {
    assert forall j :: 0 <= j < |x| ==> x[j] == s[|s| - |x| + j];
  }

  /** How many times `ch` occurs in `s`. */
  function Count(s: string, ch: char): nat
  {
    if s == [] then 0 else (if s[0] == ch then 1 else 0) + Count(s[1..], ch)
  }

  predicate EndsWithBar(s: string) { |s| > 0 && s[|s| - 1] == '|' }

  /**
   * When the guard scan stops at `|` it has committed one guard more than the
   * commas it read, so a loop reached through `|` never has an empty guard
   * list; when it runs off the end of the input it has committed one guard per
   * comma and the pending one is lost.
   */
  lemma {:induction false} ScanGuardsCount(s: string, guards: seq<Guard>, text: string, negated: bool)
    ensures var r := ScanGuards(s, guards, text, negated);
      var eaten := Eaten(s, r.rest);
      && (EndsWithBar(eaten) ==> |r.value| == |guards| + Count(eaten, ',') + 1)
      && (!EndsWithBar(eaten) ==> r.rest == [] && |r.value| == |guards| + Count(eaten, ','))
    decreases |s|
  {
    if s != [] {
      var c := s[0];
      var r := ScanGuards(s, guards, text, negated);
      if c == '|' {
        assert Eaten(s, r.rest) == [c];
      } else {
        var g' := if c == ',' then guards + [Guard(text, negated)] else guards;
        var t' := if c == ',' then "" else if IsDigit(c) then text + [c] else text;
        var n' := if c == ',' then false else if c == '!' then true else negated;
        assert r == ScanGuards(s[1..], g', t', n');
        ScanGuardsCount(s[1..], g', t', n');
        EatenStep(s, r.rest);
        EatenPrefix(c, Eaten(s[1..], r.rest));
      }
    }
  }

  lemma EatenStep(s: string, rest: string)
    requires s != [] && Consumed(s[1..], rest)
    ensures Eaten(s, rest) == [s[0]] + Eaten(s[1..], rest)
  {
  }

  /** One more character in front: a comma counts, and the last character stays last. */
  lemma EatenPrefix(c: char, e: string)
    requires c != '|'
    ensures Count([c] + e, ',') == (if c == ',' then 1 else 0) + Count(e, ',')
    ensures EndsWithBar([c] + e) <==> EndsWithBar(e)
  {
    assert ([c] + e)[1..] == e;
  }

  // ---------------------------------------------------------------------
  // Spaces and tabs are insignificant

  /** `s` with every space and tab removed. */
  function Strip(s: string): (r: string)
    ensures forall k :: 0 <= k < |r| ==> !IsBlank(r[k])
  {
    if s == [] then []
    else if IsBlank(s[0]) then Strip(s[1..])
    else [s[0]] + Strip(s[1..])
  }

  /** Stripping works piece by piece. */
  lemma {:induction false} StripConcat(a: string, b: string)
    ensures Strip(a + b) == Strip(a) + Strip(b)
    decreases |a|
  {
    if a != [] {
      assert (a + b)[0] == a[0] && (a + b)[1..] == a[1..] + b;
      StripConcat(a[1..], b);
      if !IsBlank(a[0]) {
        assert Strip(a + b) == [a[0]] + (Strip(a[1..]) + Strip(b));
      }
    } else {
      assert a + b == b;
    }
  }

  /** Text without spaces or tabs is its own stripped form. */
  lemma {:induction false} StripBlankFree(s: string)
    requires forall k :: 0 <= k < |s| ==> !IsBlank(s[k])
    ensures Strip(s) == s
    decreases |s|
  {
    if s != [] {
      StripBlankFree(s[1..]);
      assert s == [s[0]] + s[1..];
    }
  }

  lemma {:induction false} ScanGuardsStrip(s: string, guards: seq<Guard>, text: string, negated: bool)
    ensures var r := ScanGuards(s, guards, text, negated);
      ScanGuards(Strip(s), guards, text, negated) == Scanned(r.value, Strip(r.rest))
    decreases |s|
  {
    if s != [] {
      var c := s[0];
      if IsBlank(c) {
        ScanGuardsStrip(s[1..], guards, text, negated);
      } else {
        assert Strip(s)[0] == c && Strip(s)[1..] == Strip(s[1..]);
        if c == '|' {
        } else if c == ',' {
          ScanGuardsStrip(s[1..], guards + [Guard(text, negated)], "", false);
        } else if IsDigit(c) {
          ScanGuardsStrip(s[1..], guards, text + [c], negated);
        } else {
          ScanGuardsStrip(s[1..], guards, text, c == '!' || negated);
        }
      }
    }
  }

  lemma {:induction false} ScanLevelStrip(s: string, tree: Tree, current: string, line: int)
    ensures var r := ScanLevel(s, tree, current, line);
      ScanLevel(Strip(s), tree, current, line) == Scanned(r.value, Strip(r.rest))
    decreases |s|
  {
    if s != [] {
      var c := s[0];
      if IsBlank(c) {
        ScanLevelStrip(s[1..], tree, current, line);
      } else {
        assert Strip(s)[0] == c && Strip(s)[1..] == Strip(s[1..]);
        if c == '\n' {
          ScanLevelStrip(s[1..], tree, current, line + 1);
        } else if c == '{' {
          var guard := ScanGuards(s[1..], [], "", false);
          ScanGuardsStrip(s[1..], [], "", false);
          var body := ScanLevel(guard.rest, Empty(), "", line);
          ScanLevelStrip(guard.rest, Empty(), "", line);
          ScanLevelStrip(body.rest, tree.Push(NewLoop(guard.value, body.value)), current, line);
        } else if c == '}' {
        } else if IsDigit(c) {
          ScanLevelStrip(s[1..], tree, current + [c], line);
        } else {
          ScanLevelStrip(s[1..], tree.Push(NewSymbol(current + [c], line)), "", line);
        }
      }
    }
  }

  /** Removing every space and tab from a program does not change its tree. */
  lemma ParseIgnoresBlanks(input: string)
    ensures ParseText(Strip(input)) == ParseText(input)
  {
    ScanLevelStrip(input, Empty(), "", 1);
  }
}
