/**
 * The end-to-end programs of src/lagoon/mod.rs, run from a new lagoon with the
 * standard pools, for every iteration order of the registry.
 *
 * While these programs run only `+` and `-` ever hold slots, so a registry is
 * written `Std(plus, minus)`; each execute adds `Bump(plus, minus, i)` to
 * slot `i`.
 */
module Scenarios {
  import E = Expressions
  import P = PoolRegistry
  import Interpreter
  import Syntax
  import opened Executor
  import opened ExecutorLaws
  import opened Lagoons

  function Std(plus: set<int>, minus: set<int>): Registry
  {
    map['+' := P.PoolState(Increment, plus), '-' := P.PoolState(Decrement, minus),
        'i' := P.PoolState(Increment, {}), 'o' := P.PoolState(Output, {})]
  }

  function Bump(plus: set<int>, minus: set<int>, i: int): int
  {
    (if i in plus then 1 else 0) - (if i in minus then 1 else 0)
  }

  /** An iteration order of the standard registry. */
  ghost predicate AnyOrder(order: seq<char>)
  {
    Enumerates(order, {'+', '-', 'i', 'o'})
  }

  lemma StdShift(plus: set<int>, minus: set<int>)
    ensures ShiftPools(Std(plus, minus))
  {
    assert IsShift(Increment) && IsShift(Decrement) && IsShift(Output);
  }

  lemma CanonDelta(plus: set<int>, minus: set<int>, i: int)
    ensures Delta(Std(plus, minus), ['+', '-', 'i', 'o'], i) == Bump(plus, minus, i)
  {
    var pools := Std(plus, minus);
    var canon := ['+', '-', 'i', 'o'];
    assert canon[..3] == ['+', '-', 'i'] && canon[..3][..2] == ['+', '-'];
    assert canon[..3][..2][..1] == ['+'] && ['+'][..0] == [];
    assert Gain(pools, '+', i) == if i in plus then 1 else 0;
    assert Gain(pools, '-', i) == if i in minus then -1 else 0;
    assert Gain(pools, 'i', i) == 0 && Gain(pools, 'o', i) == 0;
    assert Delta(pools, ['+'], i) == Gain(pools, '+', i);
    assert Delta(pools, ['+', '-'], i) == Delta(pools, ['+'], i) + Gain(pools, '-', i);
    assert Delta(pools, ['+', '-', 'i'], i) == Delta(pools, ['+', '-'], i);
    assert Delta(pools, canon, i) == Delta(pools, ['+', '-', 'i'], i);
  }

  /** One execute under the standard mutators: each slot moves by its bump, whatever the order. */
  lemma ExecStd(m: Memory, plus: set<int>, minus: set<int>, order: seq<char>, i: int)
    requires AnyOrder(order)
    ensures Read(ExecAll(m, Std(plus, minus), order), i) == Read(m, i) + Bump(plus, minus, i)
  {
    var pools := Std(plus, minus);
    assert pools.Keys == {'+', '-', 'i', 'o'};
    StdShift(plus, minus);
    ExecPointwise(m, pools, order, i);
    ShiftSlot(pools, order, i, Read(m, i));
    DeltaEnumerates(pools, order, pools.Keys, i);
    CanonOrder();
    DeltaEnumerates(pools, ['+', '-', 'i', 'o'], pools.Keys, i);
    CanonDelta(plus, minus, i);
  }

  lemma CanonOrder()
    ensures AnyOrder(['+', '-', 'i', 'o'])
  {
  }

  lemma TogglePlus(plus: set<int>, minus: set<int>, index: int)
    ensures Toggle(Std(plus, minus), index, '+') == Std(P.Toggled(plus, index), minus)
  {
  }

  lemma ToggleMinus(plus: set<int>, minus: set<int>, index: int)
    ensures Toggle(Std(plus, minus), index, '-') == Std(plus, P.Toggled(minus, index))
  {
  }

  /** An execute, for every slot at once. */
  lemma ExecStdAll(m: Memory, plus: set<int>, minus: set<int>, order: seq<char>)
    requires AnyOrder(order)
    ensures forall i :: Read(ExecAll(m, Std(plus, minus), order), i) == Read(m, i) + Bump(plus, minus, i)
  {
    forall i
      ensures Read(ExecAll(m, Std(plus, minus), order), i) == Read(m, i) + Bump(plus, minus, i)
    {
      ExecStd(m, plus, minus, order, i);
    }
  }

  lemma StepPlus(fuel: nat, order: seq<char>, m: Memory, plus: set<int>, minus: set<int>, x: int, plus': set<int>, parts: seq<E.Expression>, k: nat)
    requires k < |parts| && parts[k] == E.Instruction(x, '+') && plus' == P.Toggled(plus, x)
    ensures RunParts(fuel, order, State(m, Std(plus, minus)), parts[k..]) == RunParts(fuel, order, State(m, Std(plus', minus)), parts[k + 1..])
  {
    assert parts[k..][0] == parts[k] && parts[k..][1..] == parts[k + 1..];
    TogglePlus(plus, minus, x);
  }

  lemma StepMinus(fuel: nat, order: seq<char>, m: Memory, plus: set<int>, minus: set<int>, x: int, minus': set<int>, parts: seq<E.Expression>, k: nat)
    requires k < |parts| && parts[k] == E.Instruction(x, '-') && minus' == P.Toggled(minus, x)
    ensures RunParts(fuel, order, State(m, Std(plus, minus)), parts[k..]) == RunParts(fuel, order, State(m, Std(plus, minus')), parts[k + 1..])
  {
    assert parts[k..][0] == parts[k] && parts[k..][1..] == parts[k + 1..];
    ToggleMinus(plus, minus, x);
  }

  /** An execute step; the memory after it is known only slot by slot. */
  lemma StepExec(fuel: nat, order: seq<char>, m: Memory, plus: set<int>, minus: set<int>, parts: seq<E.Expression>, k: nat)
      returns (m': Memory)
    requires AnyOrder(order) && k < |parts| && parts[k] == E.Exec
    ensures RunParts(fuel, order, State(m, Std(plus, minus)), parts[k..]) == RunParts(fuel, order, State(m', Std(plus, minus)), parts[k + 1..])
    ensures Read(m', 0) == Read(m, 0) + Bump(plus, minus, 0) && Read(m', 1) == Read(m, 1) + Bump(plus, minus, 1)
    ensures Read(m', 2) == Read(m, 2) + Bump(plus, minus, 2) && Read(m', 3) == Read(m, 3) + Bump(plus, minus, 3)
  {
    assert parts[k..][0] == parts[k] && parts[k..][1..] == parts[k + 1..];
    m' := ExecAll(m, Std(plus, minus), order);
    ExecStdAll(m, plus, minus, order);
  }

  lemma StepLoop(fuel: nat, order: seq<char>, st: State, next: State, parts: seq<E.Expression>, k: nat)
    requires k < |parts| && parts[k].Loop?
    requires RunLoop(fuel, fuel, order, st, parts[k].guard, parts[k].closure) == Done(next)
    ensures RunParts(fuel, order, st, parts[k..]) == RunParts(fuel, order, next, parts[k + 1..])
  {
    assert parts[k..][0] == parts[k] && parts[k..][1..] == parts[k + 1..];
  }

  /** The first and the last step of a straight run through `parts`. */
  lemma Ends(fuel: nat, order: seq<char>, st: State, parts: seq<E.Expression>)
    ensures parts[0..] == parts
    ensures RunParts(fuel, order, st, parts[|parts|..]) == Done(st)
  {
    assert parts[|parts|..] == [];
  }

  /**
   * `{a|;}` with `a` decremented and not incremented: the loop runs `n` times,
   * where `n` is the value of slot `a`, and every slot moves `n` times its bump.
   */
  lemma {:induction false} Drain(fuel: nat, left: nat, order: seq<char>, m: Memory, plus: set<int>, minus: set<int>, a: int, n: nat)
    requires AnyOrder(order) && a in minus && a !in plus
    requires Read(m, a) == n && n <= left
    ensures var r := RunLoop(fuel, left, order, State(m, Std(plus, minus)), [E.Guard(a, false)], E.Closure([E.Exec]));
            r.Done? && r.state.pools == Std(plus, minus) &&
            forall i :: Read(r.state.memory, i) == Read(m, i) + n * Bump(plus, minus, i)
    decreases n
  {
    var body := E.Closure([E.Exec]);
    var guard := [E.Guard(a, false)];
    if n > 0 {
      assert GuardsHold(m, guard);
      var m1 := ExecAll(m, Std(plus, minus), order);
      ExecStdAll(m, plus, minus, order);
      assert body.parts[1..] == [];
      assert RunParts(fuel, order, State(m, Std(plus, minus)), body.parts) == Done(State(m1, Std(plus, minus)));
      Drain(fuel, left - 1, order, m1, plus, minus, a, n - 1);
      forall i
        ensures Read(m1, i) + (n - 1) * Bump(plus, minus, i) == Read(m, i) + n * Bump(plus, minus, i)
      {
        MulStep(n, Bump(plus, minus, i));
      }
    } else {
      assert !GuardHolds(m, guard[0]);
    }
  }

  /** `n` times a bump, without multiplying. */
  function Moved(n: int, bump: int): int
  {
    if bump == 1 then n else if bump == -1 then -n else 0
  }

  lemma MovedBump(n: int, plus: set<int>, minus: set<int>, i: int)
    ensures n * Bump(plus, minus, i) == Moved(n, Bump(plus, minus, i))
  {
    var b := Bump(plus, minus, i);
    if b == 0 {
      assert n * b == 0;
    }
  }

  /** A draining loop `{a|;}` at index `k`: every slot moves by its bump once per unit of slot `a`. */
  lemma StepDrain(fuel: nat, order: seq<char>, m: Memory, plus: set<int>, minus: set<int>, a: int, parts: seq<E.Expression>, k: nat)
      returns (m': Memory)
    requires AnyOrder(order) && a in minus && a !in plus && 0 <= Read(m, a) <= fuel
    requires k < |parts| && parts[k] == E.Loop([E.Guard(a, false)], E.Closure([E.Exec]))
    ensures RunParts(fuel, order, State(m, Std(plus, minus)), parts[k..]) == RunParts(fuel, order, State(m', Std(plus, minus)), parts[k + 1..])
    ensures Read(m', 0) == Read(m, 0) + Moved(Read(m, a), Bump(plus, minus, 0))
    ensures Read(m', 1) == Read(m, 1) + Moved(Read(m, a), Bump(plus, minus, 1))
    ensures Read(m', 2) == Read(m, 2) + Moved(Read(m, a), Bump(plus, minus, 2))
    ensures Read(m', 3) == Read(m, 3) + Moved(Read(m, a), Bump(plus, minus, 3))
  {
    var st := State(m, Std(plus, minus));
    Drain(fuel, fuel, order, m, plus, minus, a, Read(m, a));
    MovedBump(Read(m, a), plus, minus, 0);
    MovedBump(Read(m, a), plus, minus, 1);
    MovedBump(Read(m, a), plus, minus, 2);
    MovedBump(Read(m, a), plus, minus, 3);
    var r := RunLoop(fuel, fuel, order, st, parts[k].guard, parts[k].closure);
    m' := r.state.memory;
    StepLoop(fuel, order, st, r.state, parts, k);
  }

  /** One round of `x+;x+`: an execute with `x` in `+`, and `+` as before afterwards. */
  lemma ToggledRound(fuel: nat, order: seq<char>, m: Memory, plus: set<int>, minus: set<int>, x: int)
    requires x !in plus
    ensures RunParts(fuel, order, State(m, Std(plus, minus)), [E.Instruction(x, '+'), E.Exec, E.Instruction(x, '+')])
         == Done(State(ExecAll(m, Std(plus + {x}, minus), order), Std(plus, minus)))
  {
    var p := [E.Instruction(x, '+'), E.Exec, E.Instruction(x, '+')];
    var m1 := ExecAll(m, Std(plus + {x}, minus), order);
    TogglePlus(plus, minus, x);
    assert P.Toggled(plus, x) == plus + {x};
    assert p[1..] == [E.Exec, E.Instruction(x, '+')];
    assert RunParts(fuel, order, State(m, Std(plus, minus)), p) == RunParts(fuel, order, State(m, Std(plus + {x}, minus)), p[1..]);
    assert p[1..][1..] == [E.Instruction(x, '+')];
    TogglePlus(plus + {x}, minus, x);
    assert P.Toggled(plus + {x}, x) == plus;
    assert RunParts(fuel, order, State(m1, Std(plus + {x}, minus)), p[1..][1..]) == RunParts(fuel, order, State(m1, Std(plus, minus)), []);
  }

  /**
   * `{a|x+;x+}` with `a` decremented and not incremented, and `x` not in `+`:
   * each round puts `x` in `+` for one execute; the loop runs `n` times, where
   * `n` is the value of slot `a`.
   */
  lemma {:induction false} DrainToggled(fuel: nat, left: nat, order: seq<char>, m: Memory, plus: set<int>, minus: set<int>, a: int, x: int, n: nat)
    requires AnyOrder(order) && a in minus && a !in plus && a != x && x !in plus
    requires Read(m, a) == n && n <= left
    ensures var r := RunLoop(fuel, left, order, State(m, Std(plus, minus)), [E.Guard(a, false)],
                             E.Closure([E.Instruction(x, '+'), E.Exec, E.Instruction(x, '+')]));
            r.Done? && r.state.pools == Std(plus, minus) &&
            forall i :: Read(r.state.memory, i) == Read(m, i) + n * Bump(plus + {x}, minus, i)
    decreases n
  {
    var body := E.Closure([E.Instruction(x, '+'), E.Exec, E.Instruction(x, '+')]);
    var guard := [E.Guard(a, false)];
    if n > 0 {
      assert GuardsHold(m, guard);
      var wider := plus + {x};
      var m1 := ExecAll(m, Std(wider, minus), order);
      ExecStdAll(m, wider, minus, order);
      assert Bump(wider, minus, a) == -1;
      ToggledRound(fuel, order, m, plus, minus, x);
      assert RunLoop(fuel, left, order, State(m, Std(plus, minus)), guard, body)
          == RunLoop(fuel, left - 1, order, State(m1, Std(plus, minus)), guard, body);
      DrainToggled(fuel, left - 1, order, m1, plus, minus, a, x, n - 1);
      var r := RunLoop(fuel, left - 1, order, State(m1, Std(plus, minus)), guard, body);
      forall i
        ensures Read(r.state.memory, i) == Read(m, i) + n * Bump(wider, minus, i)
      {
        MulStep(n, Bump(wider, minus, i));
      }
    } else {
      assert !GuardHolds(m, guard[0]);
    }
  }

  lemma MulStep(n: int, b: int)
    ensures (n - 1) * b + b == n * b
  {
  }

  /** Text whose two halves print `a` and `b` compiles to `a + b`. */
  lemma CompileJoined(a: seq<E.Expression>, b: seq<E.Expression>, ta: string, tb: string)
    requires Syntax.PrintableParts(a) && Syntax.PrintableParts(b)
    requires Syntax.ShowParts(a) == ta && Syntax.ShowParts(b) == tb
    ensures Interpreter.Compile(ta + tb) == E.Closure(a + b)
  {
    Syntax.ShowConcat(a, b);
    Syntax.CompileShown(a + b);
  }

  /** Text that prints `prefix` and then a loop compiles to both. */
  lemma CompileLoopAfter(prefix: seq<E.Expression>, guard: seq<E.Guard>, body: seq<E.Expression>,
                         tp: string, tg: string, tb: string, shown: string, text: string)
    requires Syntax.PrintableParts(prefix) && Syntax.ShowParts(prefix) == tp
    requires Syntax.PrintableGuards(guard) && Syntax.ShowGuards(guard) == tg
    requires Syntax.PrintableParts(body) && Syntax.ShowParts(body) == tb
    requires shown == "{" + tg + "|" + tb + "}" && text == tp + shown
    ensures Interpreter.Compile(text) == E.Closure(prefix + [E.Loop(guard, E.Closure(body))])
  {
    ShowLoop(guard, body, tg, tb, shown);
    CompileJoined(prefix, [E.Loop(guard, E.Closure(body))], tp, shown);
  }

  /** A new lagoon with the standard pools. */
  function Start(): State
  {
    State(map[], StandardPools())
  }

  lemma StartStd()
    ensures Start() == State(map[], Std({}, {}))
  {
  }

  // simple

  const SimpleParts: seq<E.Expression> := [E.Instruction(0, '+'), E.Exec]

  lemma SimpleText()
    ensures Interpreter.Compile("0+;") == E.Closure(SimpleParts)
  {
    assert Syntax.ShowParts(SimpleParts) == "0+;";
    Syntax.CompileShown(SimpleParts);
  }

  lemma SimpleRun(fuel: nat, order: seq<char>)
    requires AnyOrder(order)
    ensures var r := RunParts(fuel, order, Start(), SimpleParts);
            r.Done? && Read(r.state.memory, 0) == 1
  {
    StartStd();
    SimpleFrom(fuel, order, map[], SimpleParts);
  }

  lemma SimpleFrom(fuel: nat, order: seq<char>, m: Memory, p: seq<E.Expression>)
    requires AnyOrder(order) && |p| == 2 && p[0] == E.Instruction(0, '+') && p[1] == E.Exec && Read(m, 0) == 0
    ensures var r := RunParts(fuel, order, State(m, Std({}, {})), p);
            r.Done? && Read(r.state.memory, 0) == 1
  {
    Ends(fuel, order, State(m, Std({}, {})), p);
    StepPlus(fuel, order, m, {}, {}, 0, {0}, p, 0);
    var m1 := StepExec(fuel, order, m, {0}, {}, p, 1);
    Ends(fuel, order, State(m1, Std({0}, {})), p);
  }

  /** `simple`: `0+;` leaves 1 in slot 0. */
  lemma Simple(fuel: nat, order: seq<char>)
    requires AnyOrder(order)
    ensures var r := RunParts(fuel, order, Start(), Interpreter.Compile("0+;").parts);
            r.Done? && Read(r.state.memory, 0) == 1
  {
    SimpleText();
    SimpleRun(fuel, order);
  }

  // toggle_index

  const ToggleIndexParts: seq<E.Expression> := [E.Instruction(0, '+'), E.Instruction(0, '+'), E.Instruction(1, '+'), E.Exec]

  lemma ToggleIndexText()
    ensures Interpreter.Compile("0+0+1+;") == E.Closure(ToggleIndexParts)
  {
    assert Syntax.ShowParts(ToggleIndexParts) == "0+0+1+;";
    Syntax.CompileShown(ToggleIndexParts);
  }

  lemma ToggleIndexRun(fuel: nat, order: seq<char>)
    requires AnyOrder(order)
    ensures var r := RunParts(fuel, order, Start(), ToggleIndexParts);
            r.Done? && Read(r.state.memory, 0) == 0 && Read(r.state.memory, 1) == 1
  {
    StartStd();
    ToggleIndexFrom(fuel, order, map[], ToggleIndexParts);
  }

  lemma ToggleIndexFrom(fuel: nat, order: seq<char>, m: Memory, p: seq<E.Expression>)
    requires AnyOrder(order) && |p| == 4 && p[0] == p[1] == E.Instruction(0, '+') && p[2] == E.Instruction(1, '+') && p[3] == E.Exec
    requires Read(m, 0) == 0 && Read(m, 1) == 0
    ensures var r := RunParts(fuel, order, State(m, Std({}, {})), p);
            r.Done? && Read(r.state.memory, 0) == 0 && Read(r.state.memory, 1) == 1
  {
    Ends(fuel, order, State(m, Std({}, {})), p);
    StepPlus(fuel, order, m, {}, {}, 0, {0}, p, 0);
    StepPlus(fuel, order, m, {0}, {}, 0, {}, p, 1);
    StepPlus(fuel, order, m, {}, {}, 1, {1}, p, 2);
    var m1 := StepExec(fuel, order, m, {1}, {}, p, 3);
    Ends(fuel, order, State(m1, Std({1}, {})), p);
  }

  /** `toggle_index`: in `0+0+1+;` slot 0 is toggled in and out again, so only slot 1 moves. */
  lemma ToggleIndex(fuel: nat, order: seq<char>)
    requires AnyOrder(order)
    ensures var r := RunParts(fuel, order, Start(), Interpreter.Compile("0+0+1+;").parts);
            r.Done? && Read(r.state.memory, 0) == 0 && Read(r.state.memory, 1) == 1
  {
    ToggleIndexText();
    ToggleIndexRun(fuel, order);
  }

  // simple_loop and negated_loop

  /** `0+;;;0+0-1+`, the start of both loop programs. */
  const ThreeThenSwapParts: seq<E.Expression> :=
    [E.Instruction(0, '+'), E.Exec, E.Exec, E.Exec, E.Instruction(0, '+'), E.Instruction(0, '-'), E.Instruction(1, '+')]

  lemma ThreeThenSwapText()
    ensures Syntax.PrintableParts(ThreeThenSwapParts) && Syntax.ShowParts(ThreeThenSwapParts) == "0+;;;0+0-1+"
  {
    var h1 := [E.Instruction(0, '+'), E.Exec, E.Exec, E.Exec];
    var h2 := [E.Instruction(0, '+'), E.Instruction(0, '-'), E.Instruction(1, '+')];
    assert Syntax.PrintableParts(h1) && Syntax.ShowParts(h1) == "0+;;;";
    assert Syntax.PrintableParts(h2) && Syntax.ShowParts(h2) == "0+0-1+";
    assert "0+;;;" + "0+0-1+" == "0+;;;0+0-1+";
    ShowJoined(h1, h2, "0+;;;", "0+0-1+", "0+;;;0+0-1+");
    assert ThreeThenSwapParts == h1 + h2;
  }

  /** `;;;` at index `k`: three execute steps. */
  lemma StepThrice(fuel: nat, order: seq<char>, m: Memory, plus: set<int>, minus: set<int>, parts: seq<E.Expression>, k: nat)
      returns (m': Memory)
    requires AnyOrder(order) && k + 2 < |parts| && parts[k] == parts[k + 1] == parts[k + 2] == E.Exec
    ensures RunParts(fuel, order, State(m, Std(plus, minus)), parts[k..]) == RunParts(fuel, order, State(m', Std(plus, minus)), parts[k + 3..])
    ensures Read(m', 0) == Read(m, 0) + 3 * Bump(plus, minus, 0) && Read(m', 1) == Read(m, 1) + 3 * Bump(plus, minus, 1)
    ensures Read(m', 2) == Read(m, 2) + 3 * Bump(plus, minus, 2) && Read(m', 3) == Read(m, 3) + 3 * Bump(plus, minus, 3)
  {
    var m1 := StepExec(fuel, order, m, plus, minus, parts, k);
    var m2 := StepExec(fuel, order, m1, plus, minus, parts, k + 1);
    m' := StepExec(fuel, order, m2, plus, minus, parts, k + 2);
  }

  /** `0+;;;0+0-1+` from blank slots 0 and 1 and empty pools. */
  lemma ThreeThenSwapFrom(fuel: nat, order: seq<char>, m0: Memory) returns (m: Memory)
    requires AnyOrder(order) && Read(m0, 0) == 0 && Read(m0, 1) == 0
    ensures Read(m, 0) == 3 && Read(m, 1) == 0
    ensures RunParts(fuel, order, State(m0, Std({}, {})), ThreeThenSwapParts) == Done(State(m, Std({1}, {0})))
  {
    m := ThreeThenSwapHead(fuel, order, m0, ThreeThenSwapParts);
    ThreeThenSwapTail(fuel, order, m, ThreeThenSwapParts);
  }

  /** `0+;;;`: three executes with slot 0 in `+`. */
  lemma ThreeThenSwapHead(fuel: nat, order: seq<char>, m0: Memory, p: seq<E.Expression>) returns (m: Memory)
    requires AnyOrder(order) && |p| == 7 && p[0] == E.Instruction(0, '+') && p[1] == p[2] == p[3] == E.Exec
    requires Read(m0, 0) == 0 && Read(m0, 1) == 0
    ensures Read(m, 0) == 3 && Read(m, 1) == 0
    ensures RunParts(fuel, order, State(m0, Std({}, {})), p) == RunParts(fuel, order, State(m, Std({0}, {})), p[4..])
  {
    Ends(fuel, order, State(m0, Std({}, {})), p);
    StepPlus(fuel, order, m0, {}, {}, 0, {0}, p, 0);
    m := StepThrice(fuel, order, m0, {0}, {}, p, 1);
  }

  /** `0+0-1+`: slot 0 from `+` to `-`, slot 1 into `+`. */
  lemma ThreeThenSwapTail(fuel: nat, order: seq<char>, m: Memory, p: seq<E.Expression>)
    requires |p| == 7 && p[4] == E.Instruction(0, '+') && p[5] == E.Instruction(0, '-') && p[6] == E.Instruction(1, '+')
    ensures RunParts(fuel, order, State(m, Std({0}, {})), p[4..]) == Done(State(m, Std({1}, {0})))
  {
    StepPlus(fuel, order, m, {0}, {}, 0, {}, p, 4);
    StepMinus(fuel, order, m, {}, {}, 0, {0}, p, 5);
    StepPlus(fuel, order, m, {}, {0}, 1, {1}, p, 6);
    Ends(fuel, order, State(m, Std({1}, {0})), p);
  }

  /** `0+;;;0+0-1+` leaves 3 in slot 0 and puts slot 1 in `+`, slot 0 in `-`. */
  lemma ThreeThenSwap(fuel: nat, order: seq<char>) returns (m: Memory)
    requires AnyOrder(order)
    ensures Read(m, 0) == 3 && Read(m, 1) == 0
    ensures RunParts(fuel, order, Start(), ThreeThenSwapParts) == Done(State(m, Std({1}, {0})))
  {
    StartStd();
    m := ThreeThenSwapFrom(fuel, order, map[]);
  }

  const SimpleLoopTail: seq<E.Expression> := [E.Loop([E.Guard(0, false)], E.Closure([E.Exec]))]

  lemma SimpleLoopText()
    ensures Interpreter.Compile("0+;;;0+0-1+{0|;}") == E.Closure(ThreeThenSwapParts + SimpleLoopTail)
  {
    ThreeThenSwapText();
    assert Syntax.ShowParts(SimpleLoopTail) == "{0|;}";
    CompileJoined(ThreeThenSwapParts, SimpleLoopTail, "0+;;;0+0-1+", "{0|;}");
    assert "0+;;;0+0-1+" + "{0|;}" == "0+;;;0+0-1+{0|;}";
  }

  lemma SimpleLoopRun(fuel: nat, order: seq<char>)
    requires AnyOrder(order) && fuel >= 3
    ensures var r := RunParts(fuel, order, Start(), ThreeThenSwapParts + SimpleLoopTail);
            r.Done? && Read(r.state.memory, 0) == 0 && Read(r.state.memory, 1) == 3
  {
    var loop := SimpleLoopTail[0];
    var m := ThreeThenSwap(fuel, order);
    var st := State(m, Std({1}, {0}));
    RunConcat(fuel, order, Start(), ThreeThenSwapParts, SimpleLoopTail);
    Drain(fuel, fuel, order, m, {1}, {0}, 0, 3);
    var next := RunLoop(fuel, fuel, order, st, loop.guard, loop.closure);
    Ends(fuel, order, st, SimpleLoopTail);
    StepLoop(fuel, order, st, next.state, SimpleLoopTail, 0);
    Ends(fuel, order, next.state, SimpleLoopTail);
  }

  /** `simple_loop`: `0+;;;0+0-1+{0|;}` moves the 3 of slot 0 into slot 1. */
  lemma SimpleLoop(fuel: nat, order: seq<char>)
    requires AnyOrder(order) && fuel >= 3
    ensures var r := RunParts(fuel, order, Start(), Interpreter.Compile("0+;;;0+0-1+{0|;}").parts);
            r.Done? && Read(r.state.memory, 0) == 0 && Read(r.state.memory, 1) == 3
  {
    SimpleLoopText();
    SimpleLoopRun(fuel, order);
  }

  const NegatedLoopTail: seq<E.Expression> := [E.Loop([E.Guard(0, false), E.Guard(1, true)], E.Closure([E.Exec]))]

  lemma NegatedLoopText()
    ensures Interpreter.Compile("0+;;;0+0-1+{0,!1|;}") == E.Closure(ThreeThenSwapParts + NegatedLoopTail)
  {
    ThreeThenSwapText();
    NegatedLoopTailShown();
    CompileJoined(ThreeThenSwapParts, NegatedLoopTail, "0+;;;0+0-1+", "{0,!1|;}");
    assert "0+;;;0+0-1+" + "{0,!1|;}" == "0+;;;0+0-1+{0,!1|;}";
  }

  lemma NegatedGuardsShown()
    ensures Syntax.PrintableGuards([E.Guard(0, false), E.Guard(1, true)])
    ensures Syntax.ShowGuards([E.Guard(0, false), E.Guard(1, true)]) == "0,!1"
  {
    assert Syntax.ShowGuard(E.Guard(1, true)) == "!1";
  }

  lemma NegatedLoopTailShown()
    ensures Syntax.PrintableParts(NegatedLoopTail) && Syntax.ShowParts(NegatedLoopTail) == "{0,!1|;}"
  {
    NegatedGuardsShown();
    assert Syntax.PrintableParts([E.Exec]) && Syntax.ShowParts([E.Exec]) == ";";
    assert "{" + "0,!1" + "|" + ";" + "}" == "{0,!1|;}";
    ShowLoop([E.Guard(0, false), E.Guard(1, true)], [E.Exec], "0,!1", ";", "{0,!1|;}");
  }

  /** The loop `{0,!1|;}` from slot 0 at 3, slot 1 at 0, with 1 in `+` and 0 in `-`: one round. */
  lemma NegatedRound(fuel: nat, order: seq<char>, m: Memory)
    requires AnyOrder(order) && fuel >= 1 && Read(m, 0) == 3 && Read(m, 1) == 0
    ensures var r := RunLoop(fuel, fuel, order, State(m, Std({1}, {0})), [E.Guard(0, false), E.Guard(1, true)], E.Closure([E.Exec]));
            r.Done? && Read(r.state.memory, 0) == 2 && Read(r.state.memory, 1) == 1
  {
    var guard := [E.Guard(0, false), E.Guard(1, true)];
    var body := E.Closure([E.Exec]);
    var st := State(m, Std({1}, {0}));
    assert GuardHolds(m, guard[0]) && GuardHolds(m, guard[1]);
    Ends(fuel, order, st, body.parts);
    var m1 := StepExec(fuel, order, m, {1}, {0}, body.parts, 0);
    var st1 := State(m1, Std({1}, {0}));
    Ends(fuel, order, st1, body.parts);
    assert !GuardHolds(m1, guard[1]);
    assert RunLoop(fuel, fuel - 1, order, st1, guard, body) == Done(st1);
  }

  lemma NegatedLoopRun(fuel: nat, order: seq<char>)
    requires AnyOrder(order) && fuel >= 1
    ensures var r := RunParts(fuel, order, Start(), ThreeThenSwapParts + NegatedLoopTail);
            r.Done? && Read(r.state.memory, 0) == 2 && Read(r.state.memory, 1) == 1
  {
    var loop := NegatedLoopTail[0];
    var m := ThreeThenSwap(fuel, order);
    var st := State(m, Std({1}, {0}));
    RunConcat(fuel, order, Start(), ThreeThenSwapParts, NegatedLoopTail);
    NegatedRound(fuel, order, m);
    var next := RunLoop(fuel, fuel, order, st, loop.guard, loop.closure);
    Ends(fuel, order, st, NegatedLoopTail);
    StepLoop(fuel, order, st, next.state, NegatedLoopTail, 0);
    Ends(fuel, order, next.state, NegatedLoopTail);
  }

  /** `negated_loop`: `{0,!1|;}` stops as soon as slot 1 is non-zero, after one round. */
  lemma NegatedLoop(fuel: nat, order: seq<char>)
    requires AnyOrder(order) && fuel >= 1
    ensures var r := RunParts(fuel, order, Start(), Interpreter.Compile("0+;;;0+0-1+{0,!1|;}").parts);
            r.Done? && Read(r.state.memory, 0) == 2 && Read(r.state.memory, 1) == 1
  {
    NegatedLoopText();
    NegatedLoopRun(fuel, order);
  }

  // nested_loop

  /** `1+;;;1+` leaves 3 in slot 1. */
  const NestedPrefix: seq<E.Expression> :=
    [E.Instruction(1, '+'), E.Exec, E.Exec, E.Exec, E.Instruction(1, '+')]

  /** `1-;1-2+;;;2+2-`: the outer body up to the inner loop. */
  const OuterHead: seq<E.Expression> :=
    [E.Instruction(1, '-'), E.Exec, E.Instruction(1, '-'), E.Instruction(2, '+'), E.Exec, E.Exec, E.Exec,
     E.Instruction(2, '+'), E.Instruction(2, '-')]

  /** `{2|0+;0+}2-`: the inner loop and what follows it. */
  const OuterTail: seq<E.Expression> :=
    [E.Loop([E.Guard(2, false)], E.Closure([E.Instruction(0, '+'), E.Exec, E.Instruction(0, '+')])), E.Instruction(2, '-')]

  /** `1-;1-2+;;;2+2-{2|0+;0+}2-`: the body of the outer loop. */
  const OuterBody: seq<E.Expression> := OuterHead + OuterTail

  /** `p` is the outer body, expression by expression. */
  ghost predicate IsOuterBody(p: seq<E.Expression>)
  {
    && |p| == 11
    && p[0] == E.Instruction(1, '-') && p[1] == E.Exec && p[2] == E.Instruction(1, '-') && p[3] == E.Instruction(2, '+')
    && p[4] == p[5] == p[6] == E.Exec && p[7] == E.Instruction(2, '+') && p[8] == E.Instruction(2, '-')
    && p[9] == E.Loop([E.Guard(2, false)], E.Closure([E.Instruction(0, '+'), E.Exec, E.Instruction(0, '+')]))
    && p[10] == E.Instruction(2, '-')
  }

  lemma OuterBodyIs()
    ensures IsOuterBody(OuterBody)
  {
  }

  const NestedTail: seq<E.Expression> := [E.Loop([E.Guard(1, false)], E.Closure(OuterBody))]

  /** Spaces and tabs do not change what a program compiles to. */
  lemma CompileStripped(input: string)
    ensures Interpreter.Compile(Parser.Strip(input)) == Interpreter.Compile(input)
  {
    Parser.ParseIgnoresBlanks(input);
  }

  /** Three blank-free pieces joined by single spaces strip to their concatenation. */
  lemma StripSpaced(input: string, stripped: string, a: string, b: string, c: string)
    requires forall k :: 0 <= k < |a| ==> !Parser.IsBlank(a[k])
    requires forall k :: 0 <= k < |b| ==> !Parser.IsBlank(b[k])
    requires forall k :: 0 <= k < |c| ==> !Parser.IsBlank(c[k])
    requires input == a + " " + b + " " + c && stripped == a + b + c
    ensures Parser.Strip(input) == stripped
  {
    var blank := " ";
    assert Parser.Strip(blank) == "";
    Parser.StripBlankFree(a);
    Parser.StripBlankFree(b);
    Parser.StripBlankFree(c);
    Parser.StripConcat(a, blank);
    assert Parser.Strip(a + blank) == a;
    Parser.StripConcat(a + blank, b);
    assert Parser.Strip(a + blank + b) == a + b;
    Parser.StripConcat(a + blank + b, blank);
    assert Parser.Strip(a + blank + b + blank) == a + b;
    Parser.StripConcat(a + blank + b + blank, c);
  }

  lemma NestedStrip()
    ensures Parser.Strip("1+;;;1+{1|1-;1- 2+;;;2+ 2-{2|0+;0+}2-}") == "1+;;;1+{1|1-;1-2+;;;2+2-{2|0+;0+}2-}"
  {
    StripSpaced("1+;;;1+{1|1-;1- 2+;;;2+ 2-{2|0+;0+}2-}", "1+;;;1+{1|1-;1-2+;;;2+2-{2|0+;0+}2-}",
                "1+;;;1+{1|1-;1-", "2+;;;2+", "2-{2|0+;0+}2-}");
  }

  /** Printing a program piece by piece. */
  lemma ShowJoined(a: seq<E.Expression>, b: seq<E.Expression>, ta: string, tb: string, text: string)
    requires Syntax.PrintableParts(a) && Syntax.ShowParts(a) == ta
    requires Syntax.PrintableParts(b) && Syntax.ShowParts(b) == tb
    requires text == ta + tb
    ensures Syntax.PrintableParts(a + b) && Syntax.ShowParts(a + b) == text
  {
    Syntax.ShowConcat(a, b);
  }

  /** Printing a loop from its printed guards and body. */
  lemma ShowLoop(guard: seq<E.Guard>, body: seq<E.Expression>, g: string, b: string, text: string)
    requires Syntax.PrintableGuards(guard) && Syntax.ShowGuards(guard) == g
    requires Syntax.PrintableParts(body) && Syntax.ShowParts(body) == b
    requires text == "{" + g + "|" + b + "}"
    ensures Syntax.PrintableParts([E.Loop(guard, E.Closure(body))]) && Syntax.ShowParts([E.Loop(guard, E.Closure(body))]) == text
  {
    var parts := [E.Loop(guard, E.Closure(body))];
    assert parts[1..] == [];
    assert Syntax.Show(parts[0]) == text;
  }

  lemma OuterHeadShown()
    ensures Syntax.PrintableParts(OuterHead) && Syntax.ShowParts(OuterHead) == "1-;1-2+;;;2+2-"
  {
    var h1 := [E.Instruction(1, '-'), E.Exec, E.Instruction(1, '-')];
    var h2 := [E.Instruction(2, '+'), E.Exec, E.Exec, E.Exec];
    var h3 := [E.Instruction(2, '+'), E.Instruction(2, '-')];
    OuterHeadPieces();
    assert "1-;1-" + "2+;;;" + "2+2-" == "1-;1-2+;;;2+2-";
    ShowJoined(h1, h2, "1-;1-", "2+;;;", "1-;1-" + "2+;;;");
    ShowJoined(h1 + h2, h3, "1-;1-" + "2+;;;", "2+2-", "1-;1-2+;;;2+2-");
    assert OuterHead == h1 + h2 + h3;
  }

  /** `1-;1-`, `2+;;;` and `2+2-`, printed one by one. */
  lemma OuterHeadPieces()
    ensures Syntax.PrintableParts([E.Instruction(1, '-'), E.Exec, E.Instruction(1, '-')])
    ensures Syntax.ShowParts([E.Instruction(1, '-'), E.Exec, E.Instruction(1, '-')]) == "1-;1-"
    ensures Syntax.PrintableParts([E.Instruction(2, '+'), E.Exec, E.Exec, E.Exec])
    ensures Syntax.ShowParts([E.Instruction(2, '+'), E.Exec, E.Exec, E.Exec]) == "2+;;;"
    ensures Syntax.PrintableParts([E.Instruction(2, '+'), E.Instruction(2, '-')])
    ensures Syntax.ShowParts([E.Instruction(2, '+'), E.Instruction(2, '-')]) == "2+2-"
  {
    OuterHeadFirst();
    Executes();
    ShowJoined([E.Instruction(2, '+')], [E.Exec, E.Exec, E.Exec], "2+", ";;;", "2+;;;");
    assert [E.Instruction(2, '+')] + [E.Exec, E.Exec, E.Exec] == [E.Instruction(2, '+'), E.Exec, E.Exec, E.Exec];
    OuterHeadLast();
  }

  lemma OuterHeadFirst()
    ensures Syntax.PrintableParts([E.Instruction(1, '-'), E.Exec, E.Instruction(1, '-')])
    ensures Syntax.ShowParts([E.Instruction(1, '-'), E.Exec, E.Instruction(1, '-')]) == "1-;1-"
  {
  }

  lemma OuterHeadLast()
    ensures Syntax.PrintableParts([E.Instruction(2, '+'), E.Instruction(2, '-')])
    ensures Syntax.ShowParts([E.Instruction(2, '+'), E.Instruction(2, '-')]) == "2+2-"
  {
  }

  lemma OuterTailShown()
    ensures Syntax.PrintableParts(OuterTail) && Syntax.ShowParts(OuterTail) == "{2|0+;0+}2-"
  {
    var inner := [E.Instruction(0, '+'), E.Exec, E.Instruction(0, '+')];
    assert Syntax.PrintableParts(inner) && Syntax.ShowParts(inner) == "0+;0+";
    assert Syntax.PrintableGuards([E.Guard(2, false)]) && Syntax.ShowGuards([E.Guard(2, false)]) == "2";
    assert "{" + "2" + "|" + "0+;0+" + "}" == "{2|0+;0+}";
    ShowLoop([E.Guard(2, false)], inner, "2", "0+;0+", "{2|0+;0+}");
    assert Syntax.PrintableParts([E.Instruction(2, '-')]) && Syntax.ShowParts([E.Instruction(2, '-')]) == "2-";
    assert "{2|0+;0+}" + "2-" == "{2|0+;0+}2-";
    ShowJoined([OuterTail[0]], [E.Instruction(2, '-')], "{2|0+;0+}", "2-", "{2|0+;0+}2-");
    assert OuterTail == [OuterTail[0]] + [E.Instruction(2, '-')];
  }

  lemma OuterBodyText()
    ensures "1-;1-2+;;;2+2-" + "{2|0+;0+}2-" == "1-;1-2+;;;2+2-{2|0+;0+}2-"
  {
  }

  lemma OuterBodyShown()
    ensures Syntax.PrintableParts(OuterBody) && Syntax.ShowParts(OuterBody) == "1-;1-2+;;;2+2-{2|0+;0+}2-"
  {
    OuterHeadShown();
    OuterTailShown();
    OuterBodyText();
    ShowJoined(OuterHead, OuterTail, "1-;1-2+;;;2+2-", "{2|0+;0+}2-", "1-;1-2+;;;2+2-{2|0+;0+}2-");
  }

  lemma NestedLoopOpen()
    ensures "{1|" + "1-;1-2+;;;2+2-{2|0+;0+}2-" == "{1|1-;1-2+;;;2+2-{2|0+;0+}2-"
  {
  }

  lemma NestedLoopPiece()
    ensures "{" + "1" + "|" + "1-;1-2+;;;2+2-{2|0+;0+}2-" + "}" == "{1|1-;1-2+;;;2+2-{2|0+;0+}2-}"
  {
    assert "{" + "1" + "|" == "{1|";
    NestedLoopOpen();
    assert "{1|1-;1-2+;;;2+2-{2|0+;0+}2-" + "}" == "{1|1-;1-2+;;;2+2-{2|0+;0+}2-}";
  }

  lemma NestedPieces()
    ensures "1+;;;1+" + "{1|1-;1-2+;;;2+2-{2|0+;0+}2-}" == "1+;;;1+{1|1-;1-2+;;;2+2-{2|0+;0+}2-}"
  {
  }

  lemma NestedStrippedText(stripped: string)
    requires stripped == "1+;;;1+{1|1-;1-2+;;;2+2-{2|0+;0+}2-}"
    ensures Interpreter.Compile(stripped) == E.Closure(NestedPrefix + NestedTail)
  {
    assert Syntax.PrintableParts(NestedPrefix) && Syntax.ShowParts(NestedPrefix) == "1+;;;1+";
    OuterBodyShown();
    assert Syntax.PrintableGuards([E.Guard(1, false)]) && Syntax.ShowGuards([E.Guard(1, false)]) == "1";
    NestedLoopPiece();
    NestedPieces();
    CompileLoopAfter(NestedPrefix, [E.Guard(1, false)], OuterBody,
                     "1+;;;1+", "1", "1-;1-2+;;;2+2-{2|0+;0+}2-", "{1|1-;1-2+;;;2+2-{2|0+;0+}2-}", stripped);
    assert NestedTail == [E.Loop([E.Guard(1, false)], E.Closure(OuterBody))];
  }

  lemma NestedText()
    ensures Interpreter.Compile("1+;;;1+{1|1-;1- 2+;;;2+ 2-{2|0+;0+}2-}") == E.Closure(NestedPrefix + NestedTail)
  {
    CompileStripped("1+;;;1+{1|1-;1- 2+;;;2+ 2-{2|0+;0+}2-}");
    NestedStrip();
    NestedStrippedText("1+;;;1+{1|1-;1-2+;;;2+2-{2|0+;0+}2-}");
  }



  /** `1-;1-2+`: slot 1 down by one, then slot 2 in `+`. */
  lemma OuterStartRun(fuel: nat, order: seq<char>, m: Memory, parts: seq<E.Expression>) returns (m': Memory)
    requires AnyOrder(order) && IsOuterBody(parts)
    ensures RunParts(fuel, order, State(m, Std({}, {})), parts) == RunParts(fuel, order, State(m', Std({2}, {})), parts[4..])
    ensures Read(m', 0) == Read(m, 0) && Read(m', 1) == Read(m, 1) - 1 && Read(m', 2) == Read(m, 2)
  {
    m' := OuterStart1(fuel, order, m, parts);
    OuterStart2(fuel, order, m', parts);
  }

  /** `1-;`: one execute with slot 1 alone in `-`. */
  lemma OuterStart1(fuel: nat, order: seq<char>, m: Memory, parts: seq<E.Expression>) returns (m': Memory)
    requires AnyOrder(order) && |parts| == 11 && parts[0] == E.Instruction(1, '-') && parts[1] == E.Exec
    ensures RunParts(fuel, order, State(m, Std({}, {})), parts) == RunParts(fuel, order, State(m', Std({}, {1})), parts[2..])
    ensures Read(m', 0) == Read(m, 0) && Read(m', 1) == Read(m, 1) - 1 && Read(m', 2) == Read(m, 2)
  {
    Ends(fuel, order, State(m, Std({}, {})), parts);
    StepMinus(fuel, order, m, {}, {}, 1, {1}, parts, 0);
    assert Bump({}, {1}, 0) == 0 && Bump({}, {1}, 1) == -1 && Bump({}, {1}, 2) == 0;
    m' := StepExec(fuel, order, m, {}, {1}, parts, 1);
  }

  /** `1-2+`: slot 1 out of `-`, slot 2 into `+`. */
  lemma OuterStart2(fuel: nat, order: seq<char>, m: Memory, parts: seq<E.Expression>)
    requires |parts| == 11 && parts[2] == E.Instruction(1, '-') && parts[3] == E.Instruction(2, '+')
    ensures RunParts(fuel, order, State(m, Std({}, {1})), parts[2..]) == RunParts(fuel, order, State(m, Std({2}, {})), parts[4..])
  {
    StepMinus(fuel, order, m, {}, {1}, 1, {}, parts, 2);
    StepPlus(fuel, order, m, {}, {}, 2, {2}, parts, 3);
  }

  /** The outer body up to its inner loop: slot 1 down by one, slot 2 up by three, then slot 2 in `-`. */
  lemma OuterHeadRun(fuel: nat, order: seq<char>, m: Memory, parts: seq<E.Expression>) returns (m': Memory)
    requires AnyOrder(order) && IsOuterBody(parts)
    ensures RunParts(fuel, order, State(m, Std({}, {})), parts) == RunParts(fuel, order, State(m', Std({}, {2})), parts[9..])
    ensures Read(m', 0) == Read(m, 0) && Read(m', 1) == Read(m, 1) - 1 && Read(m', 2) == Read(m, 2) + 3
  {
    var m1 := OuterStartRun(fuel, order, m, parts);
    m' := OuterMiddle(fuel, order, m1, parts);
  }

  /** `;;;2+2-`: three executes with slot 2 alone in `+`, then slot 2 from `+` to `-`. */
  lemma OuterMiddle(fuel: nat, order: seq<char>, m: Memory, parts: seq<E.Expression>) returns (m': Memory)
    requires AnyOrder(order) && |parts| == 11 && parts[4] == parts[5] == parts[6] == E.Exec
    requires parts[7] == E.Instruction(2, '+') && parts[8] == E.Instruction(2, '-')
    ensures RunParts(fuel, order, State(m, Std({2}, {})), parts[4..]) == RunParts(fuel, order, State(m', Std({}, {2})), parts[9..])
    ensures Read(m', 0) == Read(m, 0) && Read(m', 1) == Read(m, 1) && Read(m', 2) == Read(m, 2) + 3
  {
    assert Bump({2}, {}, 0) == 0 && Bump({2}, {}, 1) == 0 && Bump({2}, {}, 2) == 1;
    m' := StepThrice(fuel, order, m, {2}, {}, parts, 4);
    StepPlus(fuel, order, m', {2}, {}, 2, {}, parts, 7);
    StepMinus(fuel, order, m', {}, {}, 2, {2}, parts, 8);
  }

  /** The inner loop `{2|0+;0+}` moves slot 2 (at 3) into slot 0, then `2-` empties `-` again. */
  lemma OuterTailRun(fuel: nat, order: seq<char>, m: Memory, parts: seq<E.Expression>) returns (m': Memory)
    requires AnyOrder(order) && fuel >= 3 && IsOuterBody(parts) && Read(m, 2) == 3
    ensures RunParts(fuel, order, State(m, Std({}, {2})), parts[9..]) == Done(State(m', Std({}, {})))
    ensures Read(m', 0) == Read(m, 0) + 3 && Read(m', 1) == Read(m, 1) && Read(m', 2) == 0
  {
    var st := State(m, Std({}, {2}));
    var inner := parts[9];
    DrainToggled(fuel, fuel, order, m, {}, {2}, 2, 0, 3);
    var r := RunLoop(fuel, fuel, order, st, inner.guard, inner.closure);
    m' := r.state.memory;
    assert Bump({} + {0}, {2}, 0) == 1 && Bump({} + {0}, {2}, 1) == 0 && Bump({} + {0}, {2}, 2) == -1;
    StepLoop(fuel, order, st, r.state, parts, 9);
    StepMinus(fuel, order, m', {}, {2}, 2, {}, parts, 10);
    Ends(fuel, order, State(m', Std({}, {})), parts);
  }

  /** One round of the outer loop. */
  lemma OuterRound(fuel: nat, order: seq<char>, m: Memory) returns (m': Memory)
    requires AnyOrder(order) && fuel >= 3 && Read(m, 2) == 0
    ensures RunParts(fuel, order, State(m, Std({}, {})), OuterBody) == Done(State(m', Std({}, {})))
    ensures Read(m', 0) == Read(m, 0) + 3 && Read(m', 1) == Read(m, 1) - 1 && Read(m', 2) == 0
  {
    OuterBodyIs();
    var m1 := OuterHeadRun(fuel, order, m, OuterBody);
    m' := OuterTailRun(fuel, order, m1, OuterBody);
  }

  /** The outer loop `{1|...}` runs once per unit in slot 1, adding 3 to slot 0 each time. */
  lemma {:induction false} NestedOuter(fuel: nat, left: nat, order: seq<char>, m: Memory, n: nat)
    requires AnyOrder(order) && fuel >= 3 && Read(m, 1) == n && n <= left && Read(m, 2) == 0
    ensures var r := RunLoop(fuel, left, order, State(m, Std({}, {})), [E.Guard(1, false)], E.Closure(OuterBody));
            r.Done? && Read(r.state.memory, 0) == Read(m, 0) + 3 * n && Read(r.state.memory, 1) == 0 && Read(r.state.memory, 2) == 0
    decreases n
  {
    var guard := [E.Guard(1, false)];
    if n > 0 {
      assert GuardsHold(m, guard);
      var m1 := OuterRound(fuel, order, m);
      NestedOuter(fuel, left - 1, order, m1, n - 1);
    } else {
      assert !GuardHolds(m, guard[0]);
    }
  }

  /** `1+;;;1+` leaves 3 more in slot 1 and the pools empty. */
  lemma NestedPrefixRun(fuel: nat, order: seq<char>, m0: Memory, p: seq<E.Expression>) returns (m: Memory)
    requires AnyOrder(order) && |p| == 5 && p[0] == p[4] == E.Instruction(1, '+') && p[1] == p[2] == p[3] == E.Exec
    ensures RunParts(fuel, order, State(m0, Std({}, {})), p) == Done(State(m, Std({}, {})))
    ensures Read(m, 0) == Read(m0, 0) && Read(m, 1) == Read(m0, 1) + 3 && Read(m, 2) == Read(m0, 2)
  {
    Ends(fuel, order, State(m0, Std({}, {})), p);
    StepPlus(fuel, order, m0, {}, {}, 1, {1}, p, 0);
    assert Bump({1}, {}, 0) == 0 && Bump({1}, {}, 1) == 1 && Bump({1}, {}, 2) == 0;
    m := StepThrice(fuel, order, m0, {1}, {}, p, 1);
    StepPlus(fuel, order, m, {1}, {}, 1, {}, p, 4);
    Ends(fuel, order, State(m, Std({}, {})), p);
  }

  lemma NestedRun(fuel: nat, order: seq<char>, m0: Memory)
    requires AnyOrder(order) && fuel >= 3
    requires Read(m0, 0) == 0 && Read(m0, 1) == 0 && Read(m0, 2) == 0
    ensures var r := RunParts(fuel, order, State(m0, Std({}, {})), NestedPrefix + NestedTail);
            r.Done? && Read(r.state.memory, 0) == 9 && Read(r.state.memory, 1) == 0 && Read(r.state.memory, 2) == 0
  {
    var p := NestedPrefix;
    var m := NestedPrefixRun(fuel, order, m0, p);
    var st := State(m, Std({}, {}));
    RunConcat(fuel, order, State(m0, Std({}, {})), p, NestedTail);
    NestedOuter(fuel, fuel, order, m, 3);
    var loop := NestedTail[0];
    var next := RunLoop(fuel, fuel, order, st, loop.guard, loop.closure);
    Ends(fuel, order, st, NestedTail);
    StepLoop(fuel, order, st, next.state, NestedTail, 0);
    Ends(fuel, order, next.state, NestedTail);
  }

  /** `nested_loop`: three rounds of an outer loop that each move three units into slot 0 leave 9 there. */
  lemma NestedLoop(fuel: nat, order: seq<char>)
    requires AnyOrder(order) && fuel >= 3
    ensures var r := RunParts(fuel, order, Start(), Interpreter.Compile("1+;;;1+{1|1-;1- 2+;;;2+ 2-{2|0+;0+}2-}").parts);
            r.Done? && Read(r.state.memory, 0) == 9 && Read(r.state.memory, 1) == 0 && Read(r.state.memory, 2) == 0
  {
    NestedText();
    StartStd();
    NestedRun(fuel, order, map[]);
  }

  // multiplication

  /** `0+1+;;;0+;1+` leaves 3 in slot 0 and 4 in slot 1. */
  const MulPrefix: seq<E.Expression> :=
    [E.Instruction(0, '+'), E.Instruction(1, '+'), E.Exec, E.Exec, E.Exec, E.Instruction(0, '+'), E.Exec, E.Instruction(1, '+')]

  /** `0-;0-2+1-`: slot 0 down by one, then slot 2 in `+` and slot 1 in `-`. */
  const MulHead: seq<E.Expression> :=
    [E.Instruction(0, '-'), E.Exec, E.Instruction(0, '-'), E.Instruction(2, '+'), E.Instruction(1, '-')]

  /** `{1|;}2+1-2-1+3+`: move slot 1 into slot 2, then slots 1 and 3 in `+` and slot 2 in `-`. */
  const MulMid: seq<E.Expression> :=
    [E.Loop([E.Guard(1, false)], E.Closure([E.Exec])), E.Instruction(2, '+'), E.Instruction(1, '-'),
     E.Instruction(2, '-'), E.Instruction(1, '+'), E.Instruction(3, '+')]

  /** `{2|;}2-1+3+`: move slot 2 back into slot 1 and also into slot 3, then empty the pools. */
  const MulEnd: seq<E.Expression> :=
    [E.Loop([E.Guard(2, false)], E.Closure([E.Exec])), E.Instruction(2, '-'), E.Instruction(1, '+'), E.Instruction(3, '+')]

  /** `0-;0-2+1-{1|;}2+1-2-1+3+{2|;}2-1+3+`: the body of the outer loop. */
  const MulBody: seq<E.Expression> := MulHead + MulMid + MulEnd

  /** `p` is the multiplication loop body, expression by expression. */
  ghost predicate IsMulBody(p: seq<E.Expression>)
  {
    && |p| == 15
    && p[0] == E.Instruction(0, '-') && p[1] == E.Exec && p[2] == E.Instruction(0, '-') && p[3] == E.Instruction(2, '+')
    && p[4] == E.Instruction(1, '-') && p[5] == E.Loop([E.Guard(1, false)], E.Closure([E.Exec]))
    && p[6] == E.Instruction(2, '+') && p[7] == E.Instruction(1, '-') && p[8] == E.Instruction(2, '-')
    && p[9] == E.Instruction(1, '+') && p[10] == E.Instruction(3, '+')
    && p[11] == E.Loop([E.Guard(2, false)], E.Closure([E.Exec]))
    && p[12] == E.Instruction(2, '-') && p[13] == E.Instruction(1, '+') && p[14] == E.Instruction(3, '+')
  }

  lemma MulBodyIs()
    ensures IsMulBody(MulBody)
  {
  }

  /** `p` is `0+1+;;;0+;1+`, expression by expression. */
  ghost predicate IsMulPrefix(p: seq<E.Expression>)
  {
    && |p| == 8
    && p[0] == E.Instruction(0, '+') && p[1] == E.Instruction(1, '+') && p[2] == p[3] == p[4] == E.Exec
    && p[5] == E.Instruction(0, '+') && p[6] == E.Exec && p[7] == E.Instruction(1, '+')
  }

  const MulTail: seq<E.Expression> := [E.Loop([E.Guard(0, false)], E.Closure(MulBody))]

  lemma MulMidRest()
    ensures var rest := [E.Instruction(2, '+'), E.Instruction(1, '-'), E.Instruction(2, '-'), E.Instruction(1, '+'), E.Instruction(3, '+')];
            Syntax.PrintableParts(rest) && Syntax.ShowParts(rest) == "2+1-2-1+3+"
  {
  }

  lemma MulMidShown()
    ensures Syntax.PrintableParts(MulMid) && Syntax.ShowParts(MulMid) == "{1|;}2+1-2-1+3+"
  {
    assert Syntax.PrintableParts([E.Exec]) && Syntax.ShowParts([E.Exec]) == ";";
    assert Syntax.PrintableGuards([E.Guard(1, false)]) && Syntax.ShowGuards([E.Guard(1, false)]) == "1";
    assert "{" + "1" + "|" + ";" + "}" == "{1|;}";
    ShowLoop([E.Guard(1, false)], [E.Exec], "1", ";", "{1|;}");
    assert "{1|;}" + "2+1-2-1+3+" == "{1|;}2+1-2-1+3+";
    var rest := [E.Instruction(2, '+'), E.Instruction(1, '-'), E.Instruction(2, '-'), E.Instruction(1, '+'), E.Instruction(3, '+')];
    MulMidRest();
    ShowJoined([MulMid[0]], rest, "{1|;}", "2+1-2-1+3+", "{1|;}2+1-2-1+3+");
    assert MulMid == [MulMid[0]] + rest;
  }

  lemma MulEndShown()
    ensures Syntax.PrintableParts(MulEnd) && Syntax.ShowParts(MulEnd) == "{2|;}2-1+3+"
  {
    assert Syntax.PrintableParts([E.Exec]) && Syntax.ShowParts([E.Exec]) == ";";
    assert Syntax.PrintableGuards([E.Guard(2, false)]) && Syntax.ShowGuards([E.Guard(2, false)]) == "2";
    assert "{" + "2" + "|" + ";" + "}" == "{2|;}";
    ShowLoop([E.Guard(2, false)], [E.Exec], "2", ";", "{2|;}");
    assert "{2|;}" + "2-1+3+" == "{2|;}2-1+3+";
    var rest := [E.Instruction(2, '-'), E.Instruction(1, '+'), E.Instruction(3, '+')];
    assert Syntax.PrintableParts(rest) && Syntax.ShowParts(rest) == "2-1+3+";
    ShowJoined([MulEnd[0]], rest, "{2|;}", "2-1+3+", "{2|;}2-1+3+");
    assert MulEnd == [MulEnd[0]] + rest;
  }

  lemma MulBodyShown()
    ensures Syntax.PrintableParts(MulBody) && Syntax.ShowParts(MulBody) == "0-;0-2+1-{1|;}2+1-2-1+3+{2|;}2-1+3+"
  {
    assert Syntax.PrintableParts(MulHead) && Syntax.ShowParts(MulHead) == "0-;0-2+1-";
    MulMidShown();
    MulEndShown();
    MulBodyPieces();
    MulBodyEnd();
    ShowJoined(MulHead, MulMid, "0-;0-2+1-", "{1|;}2+1-2-1+3+", "0-;0-2+1-{1|;}2+1-2-1+3+");
    ShowJoined(MulHead + MulMid, MulEnd, "0-;0-2+1-{1|;}2+1-2-1+3+", "{2|;}2-1+3+", "0-;0-2+1-{1|;}2+1-2-1+3+{2|;}2-1+3+");
  }

  lemma MulBodyPieces()
    ensures "0-;0-2+1-" + "{1|;}2+1-2-1+3+" == "0-;0-2+1-{1|;}2+1-2-1+3+"
  {
  }

  lemma MulBodyEnd()
    ensures "0-;0-2+1-{1|;}2+1-2-1+3+" + "{2|;}2-1+3+" == "0-;0-2+1-{1|;}2+1-2-1+3+{2|;}2-1+3+"
  {
  }

  lemma MulLoopOpen()
    ensures "{0|" + "0-;0-2+1-{1|;}2+1-2-1+3+{2|;}2-1+3+" == "{0|0-;0-2+1-{1|;}2+1-2-1+3+{2|;}2-1+3+"
  {
  }

  lemma MulLoopPiece()
    ensures "{" + "0" + "|" + "0-;0-2+1-{1|;}2+1-2-1+3+{2|;}2-1+3+" + "}" == "{0|0-;0-2+1-{1|;}2+1-2-1+3+{2|;}2-1+3+}"
  {
    assert "{" + "0" + "|" == "{0|";
    MulLoopOpen();
    assert "{0|0-;0-2+1-{1|;}2+1-2-1+3+{2|;}2-1+3+" + "}" == "{0|0-;0-2+1-{1|;}2+1-2-1+3+{2|;}2-1+3+}";
  }

  lemma MulPieces()
    ensures "0+1+;;;0+;1+" + "{0|0-;0-2+1-{1|;}2+1-2-1+3+{2|;}2-1+3+}" == "0+1+;;;0+;1+{0|0-;0-2+1-{1|;}2+1-2-1+3+{2|;}2-1+3+}"
  {
  }

  lemma MulPrefixShown()
    ensures Syntax.PrintableParts(MulPrefix) && Syntax.ShowParts(MulPrefix) == "0+1+;;;0+;1+"
  {
    var h1 := [E.Instruction(0, '+'), E.Instruction(1, '+')];
    var h2 := [E.Exec, E.Exec, E.Exec];
    var h3 := [E.Instruction(0, '+'), E.Exec, E.Instruction(1, '+')];
    MulPrefixFirst();
    Executes();
    MulPrefixLast();
    assert "0+1+" + ";;;" + "0+;1+" == "0+1+;;;0+;1+";
    ShowJoined(h1, h2, "0+1+", ";;;", "0+1+" + ";;;");
    ShowJoined(h1 + h2, h3, "0+1+" + ";;;", "0+;1+", "0+1+;;;0+;1+");
    assert MulPrefix == h1 + h2 + h3;
  }

  lemma MulPrefixFirst()
    ensures Syntax.PrintableParts([E.Instruction(0, '+'), E.Instruction(1, '+')])
    ensures Syntax.ShowParts([E.Instruction(0, '+'), E.Instruction(1, '+')]) == "0+1+"
  {
  }

  /** `;;;`, three executes. */
  lemma Executes()
    ensures Syntax.PrintableParts([E.Exec, E.Exec, E.Exec]) && Syntax.ShowParts([E.Exec, E.Exec, E.Exec]) == ";;;"
  {
  }

  lemma MulPrefixLast()
    ensures Syntax.PrintableParts([E.Instruction(0, '+'), E.Exec, E.Instruction(1, '+')])
    ensures Syntax.ShowParts([E.Instruction(0, '+'), E.Exec, E.Instruction(1, '+')]) == "0+;1+"
  {
  }

  lemma MulTextFrom(text: string)
    requires text == "0+1+;;;0+;1+{0|0-;0-2+1-{1|;}2+1-2-1+3+{2|;}2-1+3+}"
    ensures Interpreter.Compile(text) == E.Closure(MulPrefix + MulTail)
  {
    MulPrefixShown();
    MulBodyShown();
    MulLoopPiece();
    MulPieces();
    assert Syntax.PrintableGuards([E.Guard(0, false)]) && Syntax.ShowGuards([E.Guard(0, false)]) == "0";
    CompileLoopAfter(MulPrefix, [E.Guard(0, false)], MulBody, "0+1+;;;0+;1+", "0", "0-;0-2+1-{1|;}2+1-2-1+3+{2|;}2-1+3+",
                     "{0|0-;0-2+1-{1|;}2+1-2-1+3+{2|;}2-1+3+}", text);
  }

  lemma MulText()
    ensures Interpreter.Compile("0+1+;;;0+;1+{0|0-;0-2+1-{1|;}2+1-2-1+3+{2|;}2-1+3+}") == E.Closure(MulPrefix + MulTail)
  {
    MulTextFrom("0+1+;;;0+;1+{0|0-;0-2+1-{1|;}2+1-2-1+3+{2|;}2-1+3+}");
  }

  /** `0+1+;;;`: three executes with slots 0 and 1 in `+`. */
  lemma MulPrefixHead(fuel: nat, order: seq<char>, m0: Memory, p: seq<E.Expression>) returns (m: Memory)
    requires AnyOrder(order) && IsMulPrefix(p)
    ensures RunParts(fuel, order, State(m0, Std({}, {})), p) == RunParts(fuel, order, State(m, Std({0, 1}, {})), p[5..])
    ensures Read(m, 0) == Read(m0, 0) + 3 && Read(m, 1) == Read(m0, 1) + 3
    ensures Read(m, 2) == Read(m0, 2) && Read(m, 3) == Read(m0, 3)
  {
    Ends(fuel, order, State(m0, Std({}, {})), p);
    StepPlus(fuel, order, m0, {}, {}, 0, {0}, p, 0);
    assert P.Toggled({0}, 1) == {0, 1};
    StepPlus(fuel, order, m0, {0}, {}, 1, {0, 1}, p, 1);
    assert Bump({0, 1}, {}, 0) == 1 && Bump({0, 1}, {}, 1) == 1 && Bump({0, 1}, {}, 2) == 0 && Bump({0, 1}, {}, 3) == 0;
    m := StepThrice(fuel, order, m0, {0, 1}, {}, p, 2);
  }

  /** `0+;1+`: one execute with slot 1 alone in `+`. */
  lemma MulPrefixTail(fuel: nat, order: seq<char>, m1: Memory, p: seq<E.Expression>) returns (m: Memory)
    requires AnyOrder(order) && IsMulPrefix(p)
    ensures RunParts(fuel, order, State(m1, Std({0, 1}, {})), p[5..]) == Done(State(m, Std({}, {})))
    ensures Read(m, 0) == Read(m1, 0) && Read(m, 1) == Read(m1, 1) + 1
    ensures Read(m, 2) == Read(m1, 2) && Read(m, 3) == Read(m1, 3)
  {
    assert P.Toggled({0, 1}, 0) == {1};
    StepPlus(fuel, order, m1, {0, 1}, {}, 0, {1}, p, 5);
    assert Bump({1}, {}, 0) == 0 && Bump({1}, {}, 1) == 1 && Bump({1}, {}, 2) == 0 && Bump({1}, {}, 3) == 0;
    m := StepExec(fuel, order, m1, {1}, {}, p, 6);
    StepPlus(fuel, order, m, {1}, {}, 1, {}, p, 7);
    Ends(fuel, order, State(m, Std({}, {})), p);
  }

  /** `0+1+;;;0+;1+` from blank slots. */
  lemma MulPrefixRun(fuel: nat, order: seq<char>, m0: Memory) returns (m: Memory)
    requires AnyOrder(order) && Read(m0, 0) == 0 && Read(m0, 1) == 0 && Read(m0, 2) == 0 && Read(m0, 3) == 0
    ensures RunParts(fuel, order, State(m0, Std({}, {})), MulPrefix) == Done(State(m, Std({}, {})))
    ensures Read(m, 0) == 3 && Read(m, 1) == 4 && Read(m, 2) == 0 && Read(m, 3) == 0
  {
    assert IsMulPrefix(MulPrefix);
    var m1 := MulPrefixHead(fuel, order, m0, MulPrefix);
    m := MulPrefixTail(fuel, order, m1, MulPrefix);
  }

  /** `0-;0-2+1-`: slot 0 down by one; slot 2 in `+`, slot 1 in `-`. */
  lemma MulRoundA(fuel: nat, order: seq<char>, m: Memory, parts: seq<E.Expression>) returns (m': Memory)
    requires AnyOrder(order) && IsMulBody(parts)
    ensures RunParts(fuel, order, State(m, Std({}, {})), parts) == RunParts(fuel, order, State(m', Std({2}, {1})), parts[5..])
    ensures Read(m', 0) == Read(m, 0) - 1 && Read(m', 1) == Read(m, 1) && Read(m', 2) == Read(m, 2) && Read(m', 3) == Read(m, 3)
  {
    m' := MulRoundA1(fuel, order, m, parts);
    MulRoundA2(fuel, order, m', parts);
  }

  /** `0-;`: one execute with slot 0 alone in `-`. */
  lemma MulRoundA1(fuel: nat, order: seq<char>, m: Memory, parts: seq<E.Expression>) returns (m': Memory)
    requires AnyOrder(order) && |parts| == 15 && parts[0] == E.Instruction(0, '-') && parts[1] == E.Exec
    ensures RunParts(fuel, order, State(m, Std({}, {})), parts) == RunParts(fuel, order, State(m', Std({}, {0})), parts[2..])
    ensures Read(m', 0) == Read(m, 0) - 1 && Read(m', 1) == Read(m, 1) && Read(m', 2) == Read(m, 2) && Read(m', 3) == Read(m, 3)
  {
    Ends(fuel, order, State(m, Std({}, {})), parts);
    StepMinus(fuel, order, m, {}, {}, 0, {0}, parts, 0);
    assert Bump({}, {0}, 0) == -1 && Bump({}, {0}, 1) == 0 && Bump({}, {0}, 2) == 0 && Bump({}, {0}, 3) == 0;
    m' := StepExec(fuel, order, m, {}, {0}, parts, 1);
  }

  /** `0-2+1-`: slot 0 out of `-`, slot 2 into `+`, slot 1 into `-`. */
  lemma MulRoundA2(fuel: nat, order: seq<char>, m: Memory, parts: seq<E.Expression>)
    requires |parts| == 15 && parts[2] == E.Instruction(0, '-') && parts[3] == E.Instruction(2, '+') && parts[4] == E.Instruction(1, '-')
    ensures RunParts(fuel, order, State(m, Std({}, {0})), parts[2..]) == RunParts(fuel, order, State(m, Std({2}, {1})), parts[5..])
  {
    StepMinus(fuel, order, m, {}, {0}, 0, {}, parts, 2);
    StepPlus(fuel, order, m, {}, {}, 2, {2}, parts, 3);
    StepMinus(fuel, order, m, {2}, {}, 1, {1}, parts, 4);
  }

  /** `{1|;}` moves slot 1 into slot 2. */
  lemma MulRoundB(fuel: nat, order: seq<char>, m: Memory, parts: seq<E.Expression>) returns (m': Memory)
    requires AnyOrder(order) && |parts| == 15 && parts[5] == E.Loop([E.Guard(1, false)], E.Closure([E.Exec])) && 0 <= Read(m, 1) <= fuel
    ensures RunParts(fuel, order, State(m, Std({2}, {1})), parts[5..]) == RunParts(fuel, order, State(m', Std({2}, {1})), parts[6..])
    ensures Read(m', 0) == Read(m, 0) && Read(m', 1) == 0 && Read(m', 2) == Read(m, 2) + Read(m, 1) && Read(m', 3) == Read(m, 3)
  {
    m' := StepDrain(fuel, order, m, {2}, {1}, 1, parts, 5);
    assert Bump({2}, {1}, 0) == 0 && Bump({2}, {1}, 1) == -1 && Bump({2}, {1}, 2) == 1 && Bump({2}, {1}, 3) == 0;
  }

  /** `2+1-2-1+3+`: slots 1 and 3 in `+`, slot 2 in `-`. */
  lemma MulRoundC(fuel: nat, order: seq<char>, m: Memory, parts: seq<E.Expression>)
    requires IsMulBody(parts)
    ensures RunParts(fuel, order, State(m, Std({2}, {1})), parts[6..]) == RunParts(fuel, order, State(m, Std({1, 3}, {2})), parts[11..])
  {
    MulRoundC1(fuel, order, m, parts);
    MulRoundC2(fuel, order, m, parts);
  }

  /** `2+1-2-`: slot 2 from `+` to `-`, slot 1 out of `-`. */
  lemma MulRoundC1(fuel: nat, order: seq<char>, m: Memory, parts: seq<E.Expression>)
    requires |parts| == 15 && parts[6] == E.Instruction(2, '+') && parts[7] == E.Instruction(1, '-') && parts[8] == E.Instruction(2, '-')
    ensures RunParts(fuel, order, State(m, Std({2}, {1})), parts[6..]) == RunParts(fuel, order, State(m, Std({}, {2})), parts[9..])
  {
    StepPlus(fuel, order, m, {2}, {1}, 2, {}, parts, 6);
    StepMinus(fuel, order, m, {}, {1}, 1, {}, parts, 7);
    StepMinus(fuel, order, m, {}, {}, 2, {2}, parts, 8);
  }

  /** `1+3+`: slots 1 and 3 into `+`. */
  lemma MulRoundC2(fuel: nat, order: seq<char>, m: Memory, parts: seq<E.Expression>)
    requires |parts| == 15 && parts[9] == E.Instruction(1, '+') && parts[10] == E.Instruction(3, '+')
    ensures RunParts(fuel, order, State(m, Std({}, {2})), parts[9..]) == RunParts(fuel, order, State(m, Std({1, 3}, {2})), parts[11..])
  {
    StepPlus(fuel, order, m, {}, {2}, 1, {1}, parts, 9);
    StepPlus(fuel, order, m, {1}, {2}, 3, {1, 3}, parts, 10);
  }

  /** `{2|;}` moves slot 2 into slots 1 and 3. */
  lemma MulRoundD(fuel: nat, order: seq<char>, m: Memory, parts: seq<E.Expression>) returns (m': Memory)
    requires AnyOrder(order) && |parts| == 15 && parts[11] == E.Loop([E.Guard(2, false)], E.Closure([E.Exec])) && 0 <= Read(m, 2) <= fuel
    ensures RunParts(fuel, order, State(m, Std({1, 3}, {2})), parts[11..]) == RunParts(fuel, order, State(m', Std({1, 3}, {2})), parts[12..])
    ensures Read(m', 0) == Read(m, 0) && Read(m', 1) == Read(m, 1) + Read(m, 2) && Read(m', 2) == 0
    ensures Read(m', 3) == Read(m, 3) + Read(m, 2)
  {
    m' := StepDrain(fuel, order, m, {1, 3}, {2}, 2, parts, 11);
    assert Bump({1, 3}, {2}, 0) == 0 && Bump({1, 3}, {2}, 1) == 1 && Bump({1, 3}, {2}, 2) == -1 && Bump({1, 3}, {2}, 3) == 1;
  }

  /** `2-1+3+` empties the pools. */
  lemma MulRoundE(fuel: nat, order: seq<char>, m: Memory, parts: seq<E.Expression>)
    requires |parts| == 15 && parts[12] == E.Instruction(2, '-') && parts[13] == E.Instruction(1, '+') && parts[14] == E.Instruction(3, '+')
    ensures RunParts(fuel, order, State(m, Std({1, 3}, {2})), parts[12..]) == Done(State(m, Std({}, {})))
  {
    StepMinus(fuel, order, m, {1, 3}, {2}, 2, {}, parts, 12);
    assert P.Toggled({1, 3}, 1) == {3};
    StepPlus(fuel, order, m, {1, 3}, {}, 1, {3}, parts, 13);
    StepPlus(fuel, order, m, {3}, {}, 3, {}, parts, 14);
    Ends(fuel, order, State(m, Std({}, {})), parts);
  }

  /** One round of `{0|...}`: slot 0 down by one, slot 1 kept, slot 3 up by slot 1. */
  lemma MulRound(fuel: nat, order: seq<char>, m: Memory) returns (m': Memory)
    requires AnyOrder(order) && 0 <= Read(m, 1) <= fuel && Read(m, 2) == 0
    ensures RunParts(fuel, order, State(m, Std({}, {})), MulBody) == Done(State(m', Std({}, {})))
    ensures Read(m', 0) == Read(m, 0) - 1 && Read(m', 1) == Read(m, 1) && Read(m', 2) == 0
    ensures Read(m', 3) == Read(m, 3) + Read(m, 1)
  {
    MulBodyIs();
    var m1 := MulRoundA(fuel, order, m, MulBody);
    var m2 := MulRoundB(fuel, order, m1, MulBody);
    MulRoundC(fuel, order, m2, MulBody);
    m' := MulRoundD(fuel, order, m2, MulBody);
    MulRoundE(fuel, order, m', MulBody);
  }

  /** The loop `{0|...}` adds slot 1 to slot 3 once per unit of slot 0. */
  lemma {:induction false} MulOuter(fuel: nat, left: nat, order: seq<char>, m: Memory, n: nat)
    requires AnyOrder(order) && 0 <= Read(m, 1) <= fuel && Read(m, 2) == 0 && Read(m, 0) == n && n <= left
    ensures var r := RunLoop(fuel, left, order, State(m, Std({}, {})), [E.Guard(0, false)], E.Closure(MulBody));
            r.Done? && Read(r.state.memory, 0) == 0 && Read(r.state.memory, 1) == Read(m, 1) &&
            Read(r.state.memory, 2) == 0 && Read(r.state.memory, 3) == Read(m, 3) + n * Read(m, 1)
    decreases n
  {
    var guard := [E.Guard(0, false)];
    if n > 0 {
      assert GuardsHold(m, guard);
      var m1 := MulRound(fuel, order, m);
      MulOuter(fuel, left - 1, order, m1, n - 1);
      MulStep(n, Read(m, 1));
    } else {
      assert !GuardHolds(m, guard[0]);
    }
  }

  lemma MulRun(fuel: nat, order: seq<char>, m0: Memory)
    requires AnyOrder(order) && fuel >= 4
    requires Read(m0, 0) == 0 && Read(m0, 1) == 0 && Read(m0, 2) == 0 && Read(m0, 3) == 0
    ensures var r := RunParts(fuel, order, State(m0, Std({}, {})), MulPrefix + MulTail);
            r.Done? && Read(r.state.memory, 0) == 0 && Read(r.state.memory, 1) == 4 &&
            Read(r.state.memory, 2) == 0 && Read(r.state.memory, 3) == 12
  {
    var m := MulPrefixRun(fuel, order, m0);
    var st := State(m, Std({}, {}));
    RunConcat(fuel, order, State(m0, Std({}, {})), MulPrefix, MulTail);
    MulOuter(fuel, fuel, order, m, 3);
    var loop := MulTail[0];
    var next := RunLoop(fuel, fuel, order, st, loop.guard, loop.closure);
    Ends(fuel, order, st, MulTail);
    StepLoop(fuel, order, st, next.state, MulTail, 0);
    Ends(fuel, order, next.state, MulTail);
  }

  /** `multiplication`: 3 times 4, by repeated addition into slot 3. */
  lemma Multiplication(fuel: nat, order: seq<char>)
    requires AnyOrder(order) && fuel >= 4
    ensures var r := RunParts(fuel, order, Start(), Interpreter.Compile("0+1+;;;0+;1+{0|0-;0-2+1-{1|;}2+1-2-1+3+{2|;}2-1+3+}").parts);
            r.Done? && Read(r.state.memory, 0) == 0 && Read(r.state.memory, 1) == 4 &&
            Read(r.state.memory, 2) == 0 && Read(r.state.memory, 3) == 12
  {
    MulText();
    StartStd();
    MulRun(fuel, order, map[]);
  }
}
