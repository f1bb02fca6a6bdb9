/**
 * The interpreter object (src/lagoon/mod.rs): memory, the pool registry and
 * the code compiled so far.  `GenPools` registers the four standard pools;
 * `Append` compiles source text and adds it to the end of the code.
 */
module Lagoons {
  import E = Expressions
  import P = PoolRegistry
  import Parser
  import Interpreter
  import opened Executor

  /** The mutator of `+` and of `i`. */
  const Increment: int -> int := x => x + 1
  /** The mutator of `-`. */
  const Decrement: int -> int := x => x - 1
  /** The mutator of `o`: it prints the slot and leaves it unchanged. */
  const Output: int -> int := x => x

  /** The pools `gen_pools` registers, all empty. */
  function StandardPools(): (r: Registry)
    ensures r.Keys == {'+', '-', 'i', 'o'}
    ensures forall c :: c in r ==> r[c].members == {}
  {
    map['+' := P.PoolState(Increment, {}), '-' := P.PoolState(Decrement, {}),
        'i' := P.PoolState(Increment, {}), 'o' := P.PoolState(Output, {})]
  }

  class Lagoon {
    var memory: Memory
    const pools: P.Pools
    var code: E.Closure

    /** `Lagoon::new`: empty memory, no pools, no code. */
    constructor ()
      ensures memory == map[] && code == E.Closure([])
      ensures fresh(pools) && pools.Valid() && pools.count == 0 && pools.entries == map[]
    {
      memory := map[];
      pools := new P.Pools();
      code := E.Closure([]);
    }

    /**
     * `gen_pools`: registers `+` and `i` (add 1), `-` (subtract 1) and `o`
     * (print), each a fresh empty pool replacing any pool of that name; any
     * other pool stays.
     */
    method GenPools()
      requires pools.Valid()
      modifies pools
      ensures pools.Valid() && pools.count == old(pools.count)
      ensures pools.View() == old(pools.View())['+' := P.PoolState(Increment, {})]['-' := P.PoolState(Decrement, {})]
                                               ['i' := P.PoolState(Increment, {})]['o' := P.PoolState(Output, {})]
    {
      pools.AddPool('+', Increment);
      pools.AddPool('-', Decrement);
      pools.AddPool('i', Increment);
      pools.AddPool('o', Output);
    }

    /** `append`: the compiled expressions of `input` go after the existing code; memory and pools are untouched. */
    method Append(input: string)
      modifies this
      ensures code == E.Closure(old(code.parts) + Interpreter.Compile(input).parts)
      ensures memory == old(memory)
    {
      var tree := Parser.Parse(input);
      Interpreter.ParsedTranslatable(input);
      var closure := Interpreter.Interpret(tree);
      code := E.Closure(code.parts + closure.parts);
    }

    /** `append_raw`: `Append` on a borrowed string. */
    method AppendRaw(input: string)
      modifies this
      ensures code == E.Closure(old(code.parts) + Interpreter.Compile(input).parts)
      ensures memory == old(memory)
    {
      Append(input);
    }
  }

  /** Setting up as every test does: a new lagoon with the standard pools and nothing else. */
  method Setup() returns (lagoon: Lagoon)
    ensures fresh(lagoon) && fresh(lagoon.pools)
    ensures lagoon.pools.Valid() && lagoon.pools.View() == StandardPools()
    ensures lagoon.memory == map[] && lagoon.code == E.Closure([])
  {
    lagoon := new Lagoon();
    assert lagoon.pools.View() == map[];
    lagoon.GenPools();
  }
}
