/**
 * `add` and `subtract` of the utility library, dispatched on how many
 * arguments the caller supplied. Numbers are mathematical integers.
 */
module Arithmetic {

  /** The call shapes shared by `add(a, b?)` and `subtract(a, b?)`. */
  datatype BinaryCall = NoArgs | OneArg(a: int) | TwoArgs(a: int, b: int)

  /** What `add` hands back: `add` itself, a function still waiting for `b`, or the sum. */
  datatype AddResult = AddItself | AddCurried(apply: int -> int) | AddSum(value: int)

  /** What `subtract` hands back: `subtract` itself, a function still waiting for `b`, or the difference. */
  datatype SubtractResult = SubtractItself | SubtractCurried(apply: int -> int) | SubtractDifference(value: int)

  /** `add`. No argument: itself. `a` alone: a function adding `a` to its argument. Both: the sum. */
  function Add(c: BinaryCall): (r: AddResult)
    ensures r.AddItself? <==> c.NoArgs?
    ensures c.OneArg? ==> r.AddCurried? && forall b :: r.apply(b) == c.a + b
    ensures c.TwoArgs? ==> r.AddSum? && r.value == c.a + c.b
  {
    match c
    case NoArgs => AddItself
    case OneArg(a) => AddCurried((subB: int) => a + subB)
    case TwoArgs(a, b) => AddSum(a + b)
  }

  /** `subtract`. No argument: itself. `a` alone: a function subtracting its argument from `a`. Both: the difference. */
  function Subtract(c: BinaryCall): (r: SubtractResult)
    ensures r.SubtractItself? <==> c.NoArgs?
    ensures c.OneArg? ==> r.SubtractCurried? && forall b :: r.apply(b) == c.a - b
    ensures c.TwoArgs? ==> r.SubtractDifference? && r.value == c.a - c.b
  {
    match c
    case NoArgs => SubtractItself
    case OneArg(a) => SubtractCurried((subB: int) => a - subB)
    case TwoArgs(a, b) => SubtractDifference(a - b)
  }

  /** `add(a)(b) == add(a, b) == a + b`. */
  lemma AddShapesAgree(a: int, b: int)
    ensures Add(OneArg(a)).apply(b) == Add(TwoArgs(a, b)).value == a + b
  {
  }

  /** `subtract(a)(b) == subtract(a, b) == a - b`. */
  lemma SubtractShapesAgree(a: int, b: int)
    ensures Subtract(OneArg(a)).apply(b) == Subtract(TwoArgs(a, b)).value == a - b
  {
  }

  /** Subtracting `b` undoes adding `b`, through either call shape. */
  lemma SubtractUndoesAdd(a: int, b: int)
    ensures Subtract(TwoArgs(Add(TwoArgs(a, b)).value, b)).value == a
    ensures Subtract(OneArg(Add(OneArg(a)).apply(b))).apply(b) == a
  {
  }
}
