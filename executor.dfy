/**
 * The executor (src/lagoon/executor/mod.rs): runs a closure against memory
 * and the pool registry.
 *
 * Memory is a map from slot index to value; a slot that was never written
 * reads as 0.  The specification is the pair of functions `RunParts` and
 * `RunLoop` over a `State` value; the method `Execute` mutates the registry's
 * pool objects in place and is proved to produce exactly what `RunParts` says.
 *
 * The order in which the source visits the registry's pools during an execute
 * is the iteration order of a hash map, which the program does not choose:
 * here it is the parameter `order`.  Since a loop need not stop, every loop
 * entry may run at most `fuel` iterations; running out is the outcome
 * `OutOfFuel`, which the source does not have.
 */
module Executor {
  import E = Expressions
  import P = PoolRegistry
  import opened Wrappers

  type Memory = map<int, int>
  type Registry = map<char, P.PoolState>

  datatype State = State(memory: Memory, pools: Registry)
  datatype Failure = Panic(error: P.PoolError) | OutOfFuel
  datatype Outcome = Done(state: State) | Failed(failure: Failure)

  /** A slot's value, 0 for a slot never written; reading creates nothing. */
  function Read(memory: Memory, index: int): int
  {
    if index in memory then memory[index] else 0
  }

  /** `memory` after `func` is applied once to every slot of `members`, each created at 0 if absent. */
  function ApplyTo(memory: Memory, func: int -> int, members: set<int>): Memory
  {
    map i | i in memory.Keys + members :: if i in members then func(Read(memory, i)) else memory[i]
  }

  /** An execute: the pools named by `order`, one after the other, each applied to its members. */
  function ExecAll(memory: Memory, pools: Registry, order: seq<char>): Memory
    decreases |order|
  {
    if order == [] then memory
    else
      var before := ExecAll(memory, pools, order[..|order| - 1]);
      var c := order[|order| - 1];
      if c in pools then ApplyTo(before, pools[c].func, pools[c].members) else before
  }

  /** The registry after an instruction toggles `index` in the pool named `pool` (registered). */
  function Toggle(pools: Registry, index: int, pool: char): Registry
    requires pool in pools
  {
    pools[pool := P.PoolState(pools[pool].func, P.Toggled(pools[pool].members, index))]
  }

  /** One guard: the slot is non-zero, or with `!` the slot is zero. */
  predicate GuardHolds(memory: Memory, g: E.Guard)
  {
    (Read(memory, g.index) != 0) != g.negated
  }

  /** A guard list holds when every guard in it holds (so the empty list always holds). */
  predicate GuardsHold(memory: Memory, guard: seq<E.Guard>)
  {
    forall k :: 0 <= k < |guard| ==> GuardHolds(memory, guard[k])
  }

  /** `order` lists every identifier of `ids` exactly once, as a hash map's iteration does. */
  predicate Enumerates(order: seq<char>, ids: set<char>)
  {
    (forall j, k :: 0 <= j < k < |order| ==> order[j] != order[k]) &&
    (forall c :: c in order <==> c in ids)
  }

  /** What running `parts` from `st` produces: the expressions one after the other, stopping at the first failure. */
  function RunParts(fuel: nat, order: seq<char>, st: State, parts: seq<E.Expression>): Outcome
    decreases parts, 0
  {
    if parts == [] then Done(st)
    else match parts[0]
      case Exec =>
        RunParts(fuel, order, State(ExecAll(st.memory, st.pools, order), st.pools), parts[1..])
      case Instruction(index, pool) =>
        if pool in st.pools then RunParts(fuel, order, State(st.memory, Toggle(st.pools, index, pool)), parts[1..])
        else Failed(Panic(P.UnknownPool(pool)))
      case Loop(guard, body) =>
        match RunLoop(fuel, fuel, order, st, guard, body)
        case Failed(f) => Failed(f)
        case Done(next) => RunParts(fuel, order, next, parts[1..])
  }

  /** What a loop produces when at most `left` more iterations are allowed: the body runs again, from the start, while the guards hold. */
  function RunLoop(fuel: nat, left: nat, order: seq<char>, st: State, guard: seq<E.Guard>, body: E.Closure): Outcome
    decreases body, left
  {
    if !GuardsHold(st.memory, guard) then Done(st)
    else if left == 0 then Failed(OutOfFuel)
    else match RunParts(fuel, order, st, body.parts)
      case Failed(f) => Failed(f)
      case Done(next) => RunLoop(fuel, left - 1, order, next, guard, body)
  }

  /**
   * The guard test of a loop (`all` over the guards): each guard's slot, read
   * as 0 when absent, must be non-zero, or zero when the guard is negated; the
   * first guard that fails decides.  Memory is only read.
   */
  method CheckGuards(memory: Memory, guard: seq<E.Guard>) returns (holds: bool)
    ensures holds <==> GuardsHold(memory, guard)
  {
    holds := true;
    var k := 0;
    while k < |guard| && holds
      invariant 0 <= k <= |guard|
      invariant holds <==> forall j :: 0 <= j < k ==> GuardHolds(memory, guard[j])
    {
      var value := Read(memory, guard[k].index) != 0;
      holds := if guard[k].negated then !value else value;
      k := k + 1;
    }
  }

  /** A set that is not empty has a member. */
  lemma NonEmptyHasMember(s: set<int>)
    requires s != {}
    ensures exists i :: i in s
  {
    if forall i :: i !in s {
      assert false;
    }
  }

  /** The execute expression: each pool of `order`, in turn, applies its mutator to each of its members. */
  method ApplyAll(memory: Memory, pools: P.Pools, order: seq<char>) returns (mem: Memory)
    requires Enumerates(order, pools.entries.Keys)
    ensures mem == ExecAll(memory, pools.View(), order)
  {
    mem := memory;
    for k := 0 to |order|
      invariant mem == ExecAll(memory, pools.View(), order[..k])
    {
      assert order[..k + 1][..k] == order[..k];
      var found := pools.GetPool(order[k]);
      if found.Ok? {
        mem := ApplyPool(mem, found.value);
      }
    }
    assert order[..|order|] == order;
  }

  /** One pool's turn in an execute: its mutator applied to each of its members, in any order. */
  method ApplyPool(memory: Memory, pool: P.Pool) returns (mem: Memory)
    ensures mem == ApplyTo(memory, pool.func, pool.members)
  {
    mem := memory;
    var todo := pool.members;
    while todo != {}
      invariant todo <= pool.members
      invariant mem == ApplyTo(memory, pool.func, pool.members - todo)
      decreases todo
    {
      NonEmptyHasMember(todo);
      var i :| i in todo;
      ghost var done := pool.members - todo;
      assert Read(mem, i) == Read(memory, i);
      mem := mem[i := pool.func(Read(mem, i))];
      todo := todo - {i};
      assert pool.members - todo == done + {i};
    }
    assert pool.members - todo == pool.members;
  }

  /**
   * An instruction: toggles `index` in the pool named `id`, in place; when no
   * pool has that name nothing changes and the unknown-pool error is returned.
   */
  method Instruct(pools: P.Pools, index: int, id: char) returns (r: Option<P.PoolError>)
    requires pools.Valid()
    modifies pools.entries.Values
    ensures r.None? <==> id in old(pools.View())
    ensures r.None? ==> id in old(pools.View()) && pools.View() == Toggle(old(pools.View()), index, id)
    ensures r.Some? ==> r.value == P.UnknownPool(id) && pools.View() == old(pools.View())
  {
    var found := pools.GetPool(id);
    if found.Err? {
      return Some(found.error);
    }
    ghost var before := pools.View();
    var _ := found.value.Toggle(index);
    assert pools.View() == Toggle(before, index, id);
    return None;
  }

  /**
   * `execute`: runs `closure` on `memory`, toggling pool members in place.
   * The memory it returns and the registry it leaves are the ones `RunParts`
   * describes; an unregistered pool is the error `RunParts` reports.
   */
  method Execute(memory: Memory, pools: P.Pools, closure: E.Closure, order: seq<char>, fuel: nat)
      returns (r: Result<Memory, Failure>)
    requires pools.Valid()
    requires Enumerates(order, pools.entries.Keys)
    modifies pools.entries.Values
    decreases closure, 0
    ensures r.Ok? ==> RunParts(fuel, order, State(memory, old(pools.View())), closure.parts) == Done(State(r.value, pools.View()))
    ensures r.Err? ==> RunParts(fuel, order, State(memory, old(pools.View())), closure.parts) == Failed(r.error)
  {
    var mem := memory;
    for k := 0 to |closure.parts|
      invariant RunParts(fuel, order, State(memory, old(pools.View())), closure.parts)
             == RunParts(fuel, order, State(mem, pools.View()), closure.parts[k..])
    {
      var rest := closure.parts[k..];
      assert rest[0] == closure.parts[k] && rest[1..] == closure.parts[k + 1..];
      match closure.parts[k]
      case Exec =>
        mem := ApplyAll(mem, pools, order);
      case Instruction(index, id) =>
        var failed := Instruct(pools, index, id);
        if failed.Some? {
          return Err(Panic(failed.value));
        }
      case Loop(guard, body) =>
        var done := ExecuteLoop(mem, pools, guard, body, order, fuel);
        if done.Err? {
          return done;
        }
        mem := done.value;
    }
    return Ok(mem);
  }

  /** The `while` of a loop expression: the body runs in place, from the start, while the guards hold. */
  method ExecuteLoop(memory: Memory, pools: P.Pools, guard: seq<E.Guard>, body: E.Closure, order: seq<char>, fuel: nat)
      returns (r: Result<Memory, Failure>)
    requires pools.Valid()
    requires Enumerates(order, pools.entries.Keys)
    modifies pools.entries.Values
    decreases body, 1
    ensures r.Ok? ==> RunLoop(fuel, fuel, order, State(memory, old(pools.View())), guard, body) == Done(State(r.value, pools.View()))
    ensures r.Err? ==> RunLoop(fuel, fuel, order, State(memory, old(pools.View())), guard, body) == Failed(r.error)
  {
    var mem := memory;
    var left: nat := fuel;
    var holds := CheckGuards(mem, guard);
    while holds
      invariant left <= fuel
      invariant holds <==> GuardsHold(mem, guard)
      invariant RunLoop(fuel, fuel, order, State(memory, old(pools.View())), guard, body)
             == RunLoop(fuel, left, order, State(mem, pools.View()), guard, body)
      decreases left
    {
      if left == 0 {
        return Err(OutOfFuel);
      }
      var inner := Execute(mem, pools, body, order, fuel);
      if inner.Err? {
        return inner;
      }
      mem := inner.value;
      left := left - 1;
      holds := CheckGuards(mem, guard);
    }
    return Ok(mem);
  }
}

/** Laws of an execute expression and of running a closure. */
module ExecutorLaws {
  import E = Expressions
  import P = PoolRegistry
  import opened Executor

  /** What slot `i`, starting at `v`, holds after the pools of `order` ran in turn: a per-slot reference for `ExecAll`. */
  function SlotAfter(pools: Registry, order: seq<char>, i: int, v: int): int
    decreases |order|
  {
    if order == [] then v
    else
      var w := SlotAfter(pools, order[..|order| - 1], i, v);
      var c := order[|order| - 1];
      if c in pools && i in pools[c].members then pools[c].func(w) else w
  }

  /** Some pool of `order` holds slot `i`. */
  ghost predicate Covered(pools: Registry, order: seq<char>, i: int)
  {
    exists c :: c in order && c in pools && i in pools[c].members
  }

  /**
   * An execute, slot by slot: a slot exists afterwards when it existed or some
   * pool holds it, and its value is its old value (0 if absent) with the
   * mutator of each pool holding it applied once, in `order`.
   */
  lemma {:induction false} ExecPointwise(memory: Memory, pools: Registry, order: seq<char>, i: int)
    ensures i in ExecAll(memory, pools, order) <==> i in memory || Covered(pools, order, i)
    ensures Read(ExecAll(memory, pools, order), i) == SlotAfter(pools, order, i, Read(memory, i))
    decreases |order|
  {
    if order != [] {
      var pre := order[..|order| - 1];
      var c := order[|order| - 1];
      assert order == pre + [c];
      ExecPointwise(memory, pools, pre, i);
      if Covered(pools, order, i) && !(c in pools && i in pools[c].members) {
        var d :| d in order && d in pools && i in pools[d].members;
        assert d in pre;
      }
      if Covered(pools, pre, i) {
        var d :| d in pre && d in pools && i in pools[d].members;
        assert d in order;
      }
    }
  }

  /** A slot no pool holds is neither created nor changed by an execute. */
  lemma ExecLeavesOthers(memory: Memory, pools: Registry, order: seq<char>, i: int)
    requires !Covered(pools, order, i)
    ensures i in ExecAll(memory, pools, order) <==> i in memory
    ensures Read(ExecAll(memory, pools, order), i) == Read(memory, i)
  {
    ExecPointwise(memory, pools, order, i);
    SlotUncovered(pools, order, i, Read(memory, i));
  }

  lemma {:induction false} SlotUncovered(pools: Registry, order: seq<char>, i: int, v: int)
    requires !Covered(pools, order, i)
    ensures SlotAfter(pools, order, i, v) == v
    decreases |order|
  {
    if order != [] {
      var pre := order[..|order| - 1];
      assert order[|order| - 1] in order;
      SlotUncovered(pools, pre, i, v);
    }
  }

  /** With every pool empty, an execute changes nothing. */
  lemma ExecWithoutMembers(memory: Memory, pools: Registry, order: seq<char>)
    requires forall c :: c in pools ==> pools[c].members == {}
    ensures ExecAll(memory, pools, order) == memory
  {
    var after := ExecAll(memory, pools, order);
    forall i
      ensures i in after <==> i in memory
      ensures i in memory ==> after[i] == memory[i]
    {
      ExecLeavesOthers(memory, pools, order, i);
    }
  }

  /** A mutator that adds a constant: `+` (adds 1), `-` (adds -1), `i`, and `o` (adds 0). */
  ghost predicate IsShift(f: int -> int)
  {
    forall x :: f(x) == x + f(0)
  }

  ghost predicate ShiftPools(pools: Registry)
  {
    forall c :: c in pools ==> IsShift(pools[c].func)
  }

  /** What pool `c` adds to slot `i` in an execute (0 when it does not hold `i`). */
  function Gain(pools: Registry, c: char, i: int): int
  {
    if c in pools && i in pools[c].members then pools[c].func(0) else 0
  }

  /** The total added to slot `i` by the pools of `order`. */
  function Delta(pools: Registry, order: seq<char>, i: int): int
    decreases |order|
  {
    if order == [] then 0
    else Delta(pools, order[..|order| - 1], i) + Gain(pools, order[|order| - 1], i)
  }

  lemma {:induction false} ShiftSlot(pools: Registry, order: seq<char>, i: int, v: int)
    requires ShiftPools(pools)
    ensures SlotAfter(pools, order, i, v) == v + Delta(pools, order, i)
    decreases |order|
  {
    if order != [] {
      ShiftSlot(pools, order[..|order| - 1], i, v);
    }
  }

  /** The total added to slot `i` by the pools named in `ids`, independent of any order. */
  ghost function SetDelta(pools: Registry, ids: set<char>, i: int): int
    decreases ids
  {
    if ids == {} then 0
    else
      var c :| c in ids;
      Gain(pools, c, i) + SetDelta(pools, ids - {c}, i)
  }

  lemma {:induction false} SetDeltaRemove(pools: Registry, ids: set<char>, c: char, i: int)
    requires c in ids
    ensures SetDelta(pools, ids, i) == Gain(pools, c, i) + SetDelta(pools, ids - {c}, i)
    decreases ids
  {
    var d :| d in ids && SetDelta(pools, ids, i) == Gain(pools, d, i) + SetDelta(pools, ids - {d}, i);
    if d != c {
      SetDeltaRemove(pools, ids - {d}, c, i);
      SetDeltaRemove(pools, ids - {c}, d, i);
      assert ids - {d} - {c} == ids - {c} - {d};
    }
  }

  lemma {:induction false} DeltaEnumerates(pools: Registry, order: seq<char>, ids: set<char>, i: int)
    requires Enumerates(order, ids)
    ensures Delta(pools, order, i) == SetDelta(pools, ids, i)
    decreases |order|
  {
    if order != [] {
      var pre := order[..|order| - 1];
      var c := order[|order| - 1];
      assert order == pre + [c];
      forall d
        ensures d in pre <==> d in ids - {c}
      {
        if d in pre {
          var j :| 0 <= j < |pre| && pre[j] == d;
          assert order[j] == d;
        }
      }
      DeltaEnumerates(pools, pre, ids - {c}, i);
      SetDeltaRemove(pools, ids, c, i);
    }
  }

  /**
   * When every mutator adds a constant, the hash map's iteration order does
   * not matter: any two enumerations of the registry give the same execute.
   */
  lemma ExecOrderIndependent(memory: Memory, pools: Registry, o1: seq<char>, o2: seq<char>)
    requires ShiftPools(pools)
    requires Enumerates(o1, pools.Keys) && Enumerates(o2, pools.Keys)
    ensures ExecAll(memory, pools, o1) == ExecAll(memory, pools, o2)
  {
    var m1 := ExecAll(memory, pools, o1);
    var m2 := ExecAll(memory, pools, o2);
    forall i
      ensures i in m1 <==> i in m2
      ensures i in m1 ==> m1[i] == m2[i]
    {
      SlotOrderIndependent(memory, pools, o1, o2, i);
    }
  }

  lemma SlotOrderIndependent(memory: Memory, pools: Registry, o1: seq<char>, o2: seq<char>, i: int)
    requires ShiftPools(pools)
    requires Enumerates(o1, pools.Keys) && Enumerates(o2, pools.Keys)
    ensures i in ExecAll(memory, pools, o1) <==> i in ExecAll(memory, pools, o2)
    ensures Read(ExecAll(memory, pools, o1), i) == Read(ExecAll(memory, pools, o2), i)
  {
    ExecPointwise(memory, pools, o1, i);
    ExecPointwise(memory, pools, o2, i);
    ShiftSlot(pools, o1, i, Read(memory, i));
    ShiftSlot(pools, o2, i, Read(memory, i));
    DeltaEnumerates(pools, o1, pools.Keys, i);
    DeltaEnumerates(pools, o2, pools.Keys, i);
    CoveredEnumerated(pools, o1, o2, i);
  }

  /** Two enumerations of the registry cover the same slots. */
  lemma CoveredEnumerated(pools: Registry, o1: seq<char>, o2: seq<char>, i: int)
    requires Enumerates(o1, pools.Keys) && Enumerates(o2, pools.Keys)
    ensures Covered(pools, o1, i) <==> Covered(pools, o2, i)
  {
    if Covered(pools, o1, i) {
      var d :| d in o1 && d in pools && i in pools[d].members;
      assert d in o2;
    }
    if Covered(pools, o2, i) {
      var d :| d in o2 && d in pools && i in pools[d].members;
      assert d in o1;
    }
  }

  /**
   * An instruction's effect on the registry: the named pool keeps its mutator
   * and only `index` changes membership; every other pool is untouched.
   */
  lemma ToggleEffect(pools: Registry, index: int, pool: char)
    requires pool in pools
    ensures var r := Toggle(pools, index, pool);
      && r.Keys == pools.Keys
      && r[pool].func == pools[pool].func
      && (index in r[pool].members <==> index !in pools[pool].members)
      && (forall i :: i != index ==> (i in r[pool].members <==> i in pools[pool].members))
      && (forall c :: c in pools && c != pool ==> r[c] == pools[c])
  {
  }

  /** An instruction naming a pool that is not registered stops the run with that error. */
  lemma UnknownPoolFails(fuel: nat, order: seq<char>, st: State, index: int, pool: char, rest: seq<E.Expression>)
    requires pool !in st.pools
    ensures RunParts(fuel, order, st, [E.Instruction(index, pool)] + rest) == Failed(Panic(P.UnknownPool(pool)))
  {
  }

  /** Two registries with the same identifiers and the same mutators; only membership may differ. */
  ghost predicate SamePools(a: Registry, b: Registry)
  {
    a.Keys == b.Keys && forall c :: c in a ==> b[c].func == a[c].func
  }

  /** Running code never adds or removes a pool and never changes a mutator; only membership changes. */
  lemma {:induction false} RunKeepsPools(fuel: nat, order: seq<char>, st: State, parts: seq<E.Expression>)
    ensures RunParts(fuel, order, st, parts).Done? ==> SamePools(st.pools, RunParts(fuel, order, st, parts).state.pools)
    decreases parts, 0
  {
    if parts != [] {
      match parts[0]
      case Exec =>
        RunKeepsPools(fuel, order, State(ExecAll(st.memory, st.pools, order), st.pools), parts[1..]);
      case Instruction(index, pool) =>
        if pool in st.pools {
          RunKeepsPools(fuel, order, State(st.memory, Toggle(st.pools, index, pool)), parts[1..]);
        }
      case Loop(guard, body) =>
        LoopKeepsPools(fuel, fuel, order, st, guard, body);
        var r := RunLoop(fuel, fuel, order, st, guard, body);
        if r.Done? {
          RunKeepsPools(fuel, order, r.state, parts[1..]);
        }
    }
  }

  lemma {:induction false} LoopKeepsPools(fuel: nat, left: nat, order: seq<char>, st: State, guard: seq<E.Guard>, body: E.Closure)
    ensures RunLoop(fuel, left, order, st, guard, body).Done? ==> SamePools(st.pools, RunLoop(fuel, left, order, st, guard, body).state.pools)
    decreases body, left
  {
    if GuardsHold(st.memory, guard) && left > 0 {
      RunKeepsPools(fuel, order, st, body.parts);
      var r := RunParts(fuel, order, st, body.parts);
      if r.Done? {
        LoopKeepsPools(fuel, left - 1, order, r.state, guard, body);
      }
    }
  }

  /**
   * For the registry the interpreter builds (every mutator adds a constant), a
   * whole run gives the same outcome under every hash-map iteration order.
   */
  lemma {:induction false} RunOrderIndependent(fuel: nat, o1: seq<char>, o2: seq<char>, st: State, parts: seq<E.Expression>)
    requires ShiftPools(st.pools)
    requires Enumerates(o1, st.pools.Keys) && Enumerates(o2, st.pools.Keys)
    ensures RunParts(fuel, o1, st, parts) == RunParts(fuel, o2, st, parts)
    decreases parts, 0
  {
    if parts != [] {
      match parts[0]
      case Exec =>
        ExecOrderIndependent(st.memory, st.pools, o1, o2);
        RunOrderIndependent(fuel, o1, o2, State(ExecAll(st.memory, st.pools, o1), st.pools), parts[1..]);
      case Instruction(index, pool) =>
        if pool in st.pools {
          var next := State(st.memory, Toggle(st.pools, index, pool));
          assert next.pools.Keys == st.pools.Keys;
          RunOrderIndependent(fuel, o1, o2, next, parts[1..]);
        }
      case Loop(guard, body) =>
        LoopOrderIndependent(fuel, fuel, o1, o2, st, guard, body);
        LoopKeepsPools(fuel, fuel, o1, st, guard, body);
        var r := RunLoop(fuel, fuel, o1, st, guard, body);
        if r.Done? {
          RunOrderIndependent(fuel, o1, o2, r.state, parts[1..]);
        }
    }
  }

  lemma {:induction false} LoopOrderIndependent(fuel: nat, left: nat, o1: seq<char>, o2: seq<char>, st: State, guard: seq<E.Guard>, body: E.Closure)
    requires ShiftPools(st.pools)
    requires Enumerates(o1, st.pools.Keys) && Enumerates(o2, st.pools.Keys)
    ensures RunLoop(fuel, left, o1, st, guard, body) == RunLoop(fuel, left, o2, st, guard, body)
    decreases body, left
  {
    if GuardsHold(st.memory, guard) && left > 0 {
      RunOrderIndependent(fuel, o1, o2, st, body.parts);
      RunKeepsPools(fuel, o1, st, body.parts);
      var r := RunParts(fuel, o1, st, body.parts);
      if r.Done? {
        LoopOrderIndependent(fuel, left - 1, o1, o2, r.state, guard, body);
      }
    }
  }

  /** Toggling the same slot of the same pool twice in a row is the same as not toggling it. */
  lemma ToggleTwiceRestores(fuel: nat, order: seq<char>, st: State, index: int, pool: char, rest: seq<E.Expression>)
    requires pool in st.pools
    ensures RunParts(fuel, order, st, [E.Instruction(index, pool), E.Instruction(index, pool)] + rest)
         == RunParts(fuel, order, st, rest)
  {
    var parts := [E.Instruction(index, pool), E.Instruction(index, pool)] + rest;
    assert parts[1..][1..] == rest;
    P.ToggleTwice(st.pools[pool].members, index);
    assert Toggle(Toggle(st.pools, index, pool), index, pool) == st.pools;
  }

  /** A loop that finishes leaves its guard list false. */
  lemma {:induction false} LoopExitFalsifiesGuard(fuel: nat, left: nat, order: seq<char>, st: State, guard: seq<E.Guard>, body: E.Closure)
    ensures RunLoop(fuel, left, order, st, guard, body).Done? ==> !GuardsHold(RunLoop(fuel, left, order, st, guard, body).state.memory, guard)
    decreases left
  {
    if GuardsHold(st.memory, guard) && left > 0 {
      var r := RunParts(fuel, order, st, body.parts);
      if r.Done? {
        LoopExitFalsifiesGuard(fuel, left - 1, order, r.state, guard, body);
      }
    }
  }

  /** A loop with an empty guard list never finishes (the parser builds one only when the input ends inside a guard list): it fails, at the latest when the fuel runs out. */
  lemma {:induction false} EmptyGuardNeverExits(fuel: nat, left: nat, order: seq<char>, st: State, body: E.Closure)
    ensures RunLoop(fuel, left, order, st, [], body).Failed?
    decreases left
  {
    if left > 0 {
      var r := RunParts(fuel, order, st, body.parts);
      if r.Done? {
        EmptyGuardNeverExits(fuel, left - 1, order, r.state, body);
      }
    }
  }

  /** Continuing with `parts` after an outcome: a failure stops everything. */
  function Then(first: Outcome, fuel: nat, order: seq<char>, parts: seq<E.Expression>): Outcome
  {
    match first
    case Failed(f) => Failed(f)
    case Done(st) => RunParts(fuel, order, st, parts)
  }

  /** Expressions run in sequence: running `p1 + p2` is running `p1`, then `p2` from where it left off. */
  lemma {:induction false} RunConcat(fuel: nat, order: seq<char>, st: State, p1: seq<E.Expression>, p2: seq<E.Expression>)
    ensures RunParts(fuel, order, st, p1 + p2) == Then(RunParts(fuel, order, st, p1), fuel, order, p2)
    decreases p1
  {
    if p1 == [] {
      assert p1 + p2 == p2;
    } else {
      assert (p1 + p2)[0] == p1[0];
      assert (p1 + p2)[1..] == p1[1..] + p2;
      match p1[0]
      case Exec =>
        RunConcat(fuel, order, State(ExecAll(st.memory, st.pools, order), st.pools), p1[1..], p2);
      case Instruction(index, pool) =>
        if pool in st.pools {
          RunConcat(fuel, order, State(st.memory, Toggle(st.pools, index, pool)), p1[1..], p2);
        }
      case Loop(guard, body) =>
        var r := RunLoop(fuel, fuel, order, st, guard, body);
        if r.Done? {
          RunConcat(fuel, order, r.state, p1[1..], p2);
        }
    }
  }

  /** More fuel never changes an outcome that did not run out of fuel. */
  lemma {:induction false} RunFuelMonotone(f: nat, g: nat, order: seq<char>, st: State, parts: seq<E.Expression>)
    requires f <= g
    requires RunParts(f, order, st, parts) != Failed(OutOfFuel)
    ensures RunParts(g, order, st, parts) == RunParts(f, order, st, parts)
    decreases parts, 0
  {
    if parts != [] {
      match parts[0]
      case Exec =>
        RunFuelMonotone(f, g, order, State(ExecAll(st.memory, st.pools, order), st.pools), parts[1..]);
      case Instruction(index, pool) =>
        if pool in st.pools {
          RunFuelMonotone(f, g, order, State(st.memory, Toggle(st.pools, index, pool)), parts[1..]);
        }
      case Loop(guard, body) =>
        var r := RunLoop(f, f, order, st, guard, body);
        if r != Failed(OutOfFuel) {
          LoopFuelMonotone(f, g, f, g, order, st, guard, body);
          if r.Done? {
            RunFuelMonotone(f, g, order, r.state, parts[1..]);
          }
        }
    }
  }

  lemma {:induction false} LoopFuelMonotone(f: nat, g: nat, l: nat, m: nat, order: seq<char>, st: State, guard: seq<E.Guard>, body: E.Closure)
    requires f <= g && l <= m
    requires RunLoop(f, l, order, st, guard, body) != Failed(OutOfFuel)
    ensures RunLoop(g, m, order, st, guard, body) == RunLoop(f, l, order, st, guard, body)
    decreases body, l
  {
    if GuardsHold(st.memory, guard) {
      var r := RunParts(f, order, st, body.parts);
      if r != Failed(OutOfFuel) {
        RunFuelMonotone(f, g, order, st, body.parts);
        if r.Done? {
          LoopFuelMonotone(f, g, l - 1, m - 1, order, r.state, guard, body);
        }
      }
    }
  }
}
