/**
 * The tree-to-closure translator (src/lagoon/interpreter/mod.rs),
 * instantiated, as every caller in the source does, with `i32` indices.
 *
 * Translation is total: an index text that does not parse becomes the
 * default index 0.  The one thing it demands is that no symbol text is
 * empty (`pop().unwrap()` would panic), which the parser guarantees.
 */
module Interpreter {
  import T = Trees
  import E = Expressions
  import Parser
  import opened Wrappers

  const I32Min: int := -0x8000_0000
  const I32Max: int := 0x7fff_ffff

  /** The value of a string of decimal digits, most significant first. */
  function DigitsValue(s: string): nat
    requires Parser.AllDigits(s)
  {
    if s == [] then 0 else DigitsValue(s[..|s| - 1]) * 10 + (s[|s| - 1] as int - '0' as int)
  }

  /** An optional sign, then at least one ASCII digit: the only texts `parse::<i32>` may accept. */
  predicate Numeral(text: string)
  {
    || (|text| > 0 && Parser.AllDigits(text))
    || (|text| > 1 && (text[0] == '+' || text[0] == '-') && Parser.AllDigits(text[1..]))
  }

  /**
   * `str::parse::<i32>`: an optional `+` or `-` followed by at least one ASCII
   * digit, and a value inside the `i32` range; anything else is an error.
   */
  function ParseI32(text: string): (r: Option<int>)
    ensures r.Some? ==> Numeral(text) && I32Min <= r.value <= I32Max
    ensures |text| > 0 && Parser.AllDigits(text) ==>
      r == (if DigitsValue(text) <= I32Max then Some(DigitsValue(text)) else None)
    ensures |text| > 1 && text[0] == '+' && Parser.AllDigits(text[1..]) ==>
      r == (if DigitsValue(text[1..]) <= I32Max then Some(DigitsValue(text[1..])) else None)
    ensures |text| > 1 && text[0] == '-' && Parser.AllDigits(text[1..]) ==>
      r == (if I32Min <= -(DigitsValue(text[1..]) as int) then Some(-(DigitsValue(text[1..]) as int)) else None)
  {
    var signed := |text| > 0 && (text[0] == '-' || text[0] == '+');
    var digits := if signed then text[1..] else text;
    if digits == [] || !Parser.AllDigits(digits) then None
    else
      var v: int := if signed && text[0] == '-' then -(DigitsValue(digits) as int) else DigitsValue(digits);
      if I32Min <= v <= I32Max then Some(v) else None
  }

  /** Leading zeros do not change the value of a numeral. */
  lemma {:induction false} LeadingZero(s: string)
    requires Parser.AllDigits(s)
    ensures Parser.AllDigits("0" + s) && DigitsValue("0" + s) == DigitsValue(s)
    decreases |s|
  {
    if s != [] {
      var z := "0" + s;
      assert z[..|z| - 1] == "0" + s[..|s| - 1];
      assert z[|z| - 1] == s[|s| - 1];
      LeadingZero(s[..|s| - 1]);
    }
  }

  /** The index a text stands for: its parse, or `T::default()` (0) when it does not parse. */
  function IndexOf(text: string): (i: int)
    ensures I32Min <= i <= I32Max
    ensures ParseI32(text).Some? ==> i == ParseI32(text).value
    ensures ParseI32(text).None? ==> i == 0
  {
    match ParseI32(text)
    case Some(v) => v
    case None => 0
  }

  /** No symbol anywhere in the node has empty text. */
  predicate Translatable(n: T.Node)
    decreases n
  {
    match n
    case Symbol(text, _) => |text| > 0
    case Loop(_, tree) => TranslatableNodes(tree.nodes)
  }

  predicate TranslatableNodes(nodes: seq<T.Node>)
    decreases nodes
  {
    forall k :: 0 <= k < |nodes| ==> Translatable(nodes[k])
  }

  /** A guard reads the slot its text names (0 when the text does not parse) and keeps its negation. */
  function TranslateGuard(g: T.Guard): (r: E.Guard)
    ensures r.index == IndexOf(g.text) && r.negated == g.negated
  {
    E.NewGuard(IndexOf(g.text), g.negated)
  }

  /** `rinterpret`: the expression a node stands for, in the sense of `Corresponds`. */
  function Translate(n: T.Node): (e: E.Expression)
    requires Translatable(n)
    ensures Corresponds(n, e)
    decreases n
  {
    match n
    case Symbol(text, _) =>
      var pool := text[|text| - 1];
      if pool == ';' then E.Exec
      else E.NewInstruction(IndexOf(text[..|text| - 1]), pool)
    case Loop(guard, tree) =>
      assert TranslatableNodes(tree.nodes);
      var parts := seq(|tree.nodes|, k requires 0 <= k < |tree.nodes| && Translatable(tree.nodes[k]) =>
        Translate(tree.nodes[k]));
      assert forall k :: 0 <= k < |tree.nodes| ==> Corresponds(tree.nodes[k], parts[k]);
      E.NewLoop(seq(|guard|, k requires 0 <= k < |guard| => TranslateGuard(guard[k])), E.NewClosure(parts))
  }

  /**
   * What translating `n` into `e` keeps: a symbol ending in `;` becomes `Exec`
   * and any other symbol an instruction on the pool named by its last
   * character, at the index its other characters spell; a loop keeps its
   * number of guards, each guard's index text and negation, and its body node
   * for node.
   */
  predicate Corresponds(n: T.Node, e: E.Expression)
    decreases n
  {
    match n
    case Symbol(text, _) =>
      && |text| > 0
      && var last := text[|text| - 1];
         if last == ';' then e.Exec?
         else e.Instruction? && e.pool == last && e.index == IndexOf(text[..|text| - 1])
    case Loop(guard, tree) =>
      && e.Loop?
      && |e.guard| == |guard|
      && (forall k :: 0 <= k < |guard| ==>
            e.guard[k].index == IndexOf(guard[k].text) && e.guard[k].negated == guard[k].negated)
      && |e.closure.parts| == |tree.nodes|
      && forall k :: 0 <= k < |tree.nodes| ==> Corresponds(tree.nodes[k], e.closure.parts[k])
  }

  /** `interpret`: one expression per top-level node, in the same order. */
  function Interpret(tree: T.Tree): (c: E.Closure)
    requires TranslatableNodes(tree.nodes)
    ensures |c.parts| == |tree.nodes|
    ensures forall k :: 0 <= k < |tree.nodes| ==> Corresponds(tree.nodes[k], c.parts[k])
  {
    var c := E.Closure(seq(|tree.nodes|, k requires 0 <= k < |tree.nodes| && Translatable(tree.nodes[k]) =>
      Translate(tree.nodes[k])));
    c
  }

  /** Whatever precedes the final `;` of a symbol is discarded. */
  lemma ExecDiscardsPrefix(prefix: string, line: int)
    ensures Translate(T.Symbol(prefix + ";", line)) == E.Exec
  {
  }

  /** The exec symbol of the tree factory translates to `Exec`. */
  lemma NewExecTranslates(line: int)
    ensures Translate(T.NewExec(line)) == E.NewExec()
  {
  }

  /** A pool character with no index before it, as in "+", falls back to index 0. */
  lemma EmptyIndexDefaults(pool: char, line: int)
    requires pool != ';'
    ensures Translate(T.Symbol([pool], line)) == E.Instruction(0, pool)
  {
    assert [pool][..0] == [];
  }

  /** A zero in front of an index changes nothing: `007+` is slot 7 of pool `+`, `0+` and `+` are both slot 0. */
  lemma ZeroPaddedIndex(digits: string)
    requires Parser.AllDigits(digits)
    ensures IndexOf("0" + digits) == IndexOf(digits)
  {
    LeadingZero(digits);
    if digits == [] {
      assert DigitsValue("0") == 0;
    }
  }

  /** Every symbol the parser emits is non-empty, so its trees can always be translated. */
  lemma {:induction false} WellFormedTranslatable(nodes: seq<T.Node>)
    requires Parser.WellFormedNodes(nodes)
    ensures TranslatableNodes(nodes)
    decreases nodes
  {
    forall k | 0 <= k < |nodes|
      ensures Translatable(nodes[k])
    {
      match nodes[k]
      case Symbol(_, _) =>
      case Loop(_, tree) =>
        WellFormedTranslatable(tree.nodes);
    }
  }

  lemma ParsedTranslatable(input: string)
    ensures TranslatableNodes(Parser.ParseText(input).nodes)
  {
    Parser.ParseWellFormed(input);
    WellFormedTranslatable(Parser.ParseText(input).nodes);
  }

  /** The front end: the closure `append` adds for a piece of source text. */
  function Compile(input: string): (c: E.Closure)
    ensures |c.parts| == |Parser.ParseText(input).nodes|
  {
    ParsedTranslatable(input);
    Interpret(Parser.ParseText(input))
  }
}
