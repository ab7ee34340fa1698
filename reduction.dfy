/**
 * `reduce` of the utility library, dispatched on how many arguments the
 * caller supplied, including the function its one-argument call returns.
 */
module Reduction {
  import opened JsValues
  import opened ArrayMethods

  /** The call shapes of `reduce`: zero to three of reducer, initial value and input array. */
  datatype ReduceCall<!T, !R> =
    | ReduceNoArgs
    | ReduceReducer(reducer: (R, T) -> R)
    | ReduceReducerInit(reducer: (R, T) -> R, init: R)
    | ReduceReducerInitInput(reducer: (R, T) -> R, init: R, input: seq<T>)

  /** The call shapes of the function returned by `reduce(reducer)`: up to an initial value and an input array. */
  datatype CurriedCall<T, R> =
    | CurriedNoArgs
    | CurriedInit(init: R)
    | CurriedInitInput(init: R, input: seq<T>)

  /**
   * What `reduce` hands back: `reduce` itself; the function of one-argument
   * calls, which may throw; the function of two-argument calls; or the
   * folded value.
   */
  datatype ReduceResult<!T, !R> =
    | ReduceItself
    | ReduceCurried(call: CurriedCall<T, R> -> Completion<R>)
    | ReduceFunction(apply: seq<T> -> R)
    | ReduceValue(value: R)

  /**
   * The function returned by `reduce(reducer)`. It always reads its second
   * argument as the array to fold; when that argument is missing it is
   * `undefined`, and calling `reduce` on it throws a TypeError.
   */
  function CurriedReduce<T, R>(reducer: (R, T) -> R, c: CurriedCall<T, R>): (r: Completion<R>)
    ensures r.Normal? <==> c.CurriedInitInput?
    ensures c.CurriedInitInput? && c.input == [] ==> r == Normal(c.init)
    ensures c.CurriedInitInput? && c.input != [] ==>
              r == Normal(reducer(FoldLeft(reducer, c.init, c.input[..|c.input| - 1]), c.input[|c.input| - 1]))
  {
    match c
    case CurriedInitInput(subInitialValue, subInput) =>
      Normal(FoldLeft(reducer, subInitialValue, subInput))
    case _ => Throw(TypeError)
  }

  /**
   * `reduce`. No argument: itself. Reducer only: a function of
   * `(initialValue, input)` that folds `input`. Reducer and initial value: a
   * function that folds its argument. All three: the fold, computed now.
   */
  function Reduce<T, R>(c: ReduceCall<T, R>): (r: ReduceResult<T, R>)
    ensures r.ReduceItself? <==> c.ReduceNoArgs?
    ensures c.ReduceReducer? ==> r.ReduceCurried?
    ensures c.ReduceReducerInit? ==> r.ReduceFunction? && r.apply([]) == c.init
    ensures c.ReduceReducerInitInput? ==> r.ReduceValue?
    ensures c.ReduceReducerInitInput? && c.input == [] ==> r.value == c.init
    ensures c.ReduceReducerInitInput? && c.input != [] ==>
              r.value == c.reducer(FoldLeft(c.reducer, c.init, c.input[..|c.input| - 1]), c.input[|c.input| - 1])
  {
    match c
    case ReduceNoArgs => ReduceItself
    case ReduceReducer(reducer) =>
      ReduceCurried((sub: CurriedCall<T, R>) => CurriedReduce(reducer, sub))
    case ReduceReducerInit(reducer, initialValue) =>
      ReduceFunction((subInput: seq<T>) => FoldLeft(reducer, initialValue, subInput))
    case ReduceReducerInitInput(reducer, initialValue, input) =>
      ReduceValue(FoldLeft(reducer, initialValue, input))
  }

  /** The three call shapes that fold agree: `reduce(r)(i, s) == reduce(r, i)(s) == reduce(r, i, s)`. */
  lemma ReduceShapesAgree<T, R>(r: (R, T) -> R, i: R, s: seq<T>)
    ensures Reduce(ReduceReducer(r)).call(CurriedInitInput(i, s)) == Normal(Reduce(ReduceReducerInit(r, i)).apply(s))
    ensures Reduce(ReduceReducerInit(r, i)).apply(s) == Reduce(ReduceReducerInitInput(r, i, s)).value
    ensures Reduce(ReduceReducerInitInput(r, i, s)).value == FoldLeft(r, i, s)
  {
  }

  /**
   * The function that `reduce(r)` returns does no dispatch of its own: called
   * with the initial value alone, or with nothing, it throws instead of
   * returning a function.
   */
  lemma CurriedReduceHasNoNestedDispatch<T, R>(r: (R, T) -> R, i: R)
    ensures Reduce(ReduceReducer(r)).call(CurriedInit(i)) == Throw(TypeError)
    ensures Reduce(ReduceReducer(r)).call(CurriedNoArgs) == Throw(TypeError)
  {
  }

  /** The full call folds left to right: the result absorbs the last element after all the others. */
  lemma {:induction false} ReduceFoldsLeftToRight<T, R>(r: (R, T) -> R, i: R, xs: seq<T>, x: T)
    ensures Reduce(ReduceReducerInitInput(r, i, xs + [x])).value == r(Reduce(ReduceReducerInitInput(r, i, xs)).value, x)
  {
    FoldLeftAppend(r, i, xs, [x]);
  }

  /** `reduce((a, b) => a + b, 0, [1, 2, 3, 4])` is `10`. */
  lemma ReduceSums()
    ensures Reduce(ReduceReducerInitInput((a: int, b: int) => a + b, 0, [1, 2, 3, 4])).value == 10
  {
    var plus := (a: int, b: int) => a + b;
    assert [1, 2, 3, 4][1..] == [2, 3, 4];
    assert [2, 3, 4][1..] == [3, 4];
    assert [3, 4][1..] == [4];
    assert [4][1..] == [];
    assert FoldLeft(plus, 0, [1, 2, 3, 4]) == FoldLeft(plus, 1, [2, 3, 4]) == FoldLeft(plus, 3, [3, 4]);
  }
}
