/**
 * The executable form of a program (src/lagoon/interpreter/expression.rs).
 *
 * Indices are the source's `i32` instantiation of the generic index type,
 * held as unbounded integers.  Equality of these datatypes is structural,
 * as the derived `PartialEq` of the source is.
 */
module Expressions {

  /** A loop guard: the slot it reads and whether its truth is inverted. */
  datatype Guard = Guard(index: int, negated: bool)

  datatype Expression =
    | Exec
    | Instruction(index: int, pool: char)
    | Loop(guard: seq<Guard>, closure: Closure)

  datatype Closure = Closure(parts: seq<Expression>)

  function NewInstruction(index: int, pool: char): (e: Expression)
    ensures e.Instruction? && e.index == index && e.pool == pool
  {
    Instruction(index, pool)
  }

  function NewLoop(guard: seq<Guard>, closure: Closure): (e: Expression)
    ensures e.Loop? && e.guard == guard && e.closure == closure
  {
    Loop(guard, closure)
  }

  function NewClosure(parts: seq<Expression>): (c: Closure)
    ensures c.parts == parts
  {
    Closure(parts)
  }

  function NewGuard(index: int, negated: bool): (g: Guard)
    ensures g.index == index && g.negated == negated
  {
    Guard(index, negated)
  }

  function NewExec(): (e: Expression)
    ensures e.Exec?
  {
    Exec
  }
}
