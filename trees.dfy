/**
 * The syntax tree built by the parser (src/lagoon/tree.rs).
 *
 * A tree is an ordered sequence of nodes; a node is either a raw symbol
 * token such as "12+" or ";", or a loop holding its guards and a nested tree.
 */
module Trees {

  /** A loop guard as written: its index text and whether `!` negated it. */
  datatype Guard = Guard(text: string, negated: bool)

  datatype Node =
    | Symbol(text: string, line: int)
    | Loop(guard: seq<Guard>, tree: Tree)

  datatype Tree = Tree(nodes: seq<Node>)
  {
    /** `Tree::push`: the node goes at the end, earlier nodes stay as they were. */
    function Push(node: Node): (t: Tree)
      ensures |t.nodes| == |nodes| + 1
      ensures t.nodes[|nodes|] == node
      ensures t.nodes[..|nodes|] == nodes
    {
      Tree(nodes + [node])
    }
  }

  /** `Tree::new` / `factory::new_tree`. */
  function NewTree(nodes: seq<Node>): (t: Tree)
    ensures t.nodes == nodes
  {
    Tree(nodes)
  }

  /** `Tree::empty`. */
  function Empty(): (t: Tree)
    ensures |t.nodes| == 0
  {
    NewTree([])
  }

  function NewSymbol(text: string, line: int): (n: Node)
    ensures n.Symbol? && n.text == text && n.line == line
  {
    Symbol(text, line)
  }

  function NewLoop(guard: seq<Guard>, tree: Tree): (n: Node)
    ensures n.Loop? && n.guard == guard && n.tree == tree
  {
    Loop(guard, tree)
  }

  function NewGuard(text: string, negated: bool): (g: Guard)
    ensures g.text == text && g.negated == negated
  {
    Guard(text, negated)
  }

  /** The execution trigger is nothing but the one-character symbol ";". */
  function NewExec(line: int): (n: Node)
    ensures n == NewSymbol(";", line)
  {
    Symbol(";", line)
  }
}
