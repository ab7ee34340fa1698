/**
 * `map` and `filter` of the utility library, dispatched on how many
 * arguments the caller supplied.
 */
module Collections {
  import opened ArrayMethods

  /** The call shapes of `map`: no argument, the mapper alone, or the mapper and an input array. */
  datatype MapCall<!T, R> =
    | MapNoArgs
    | MapMapper(mapper: T -> R)
    | MapMapperInput(mapper: T -> R, input: seq<T>)

  /** What `map` hands back: `map` itself, or a function from arrays to arrays. */
  datatype MapResult<!T, R> = MapItself | MapFunction(apply: seq<T> -> seq<R>)

  /**
   * `map`. With no argument it returns itself; otherwise it returns a function
   * that maps its own argument element-wise. The two-argument call also returns
   * such a function and never looks at the input it was given.
   */
  function Map<T(!new), R>(c: MapCall<T, R>): (r: MapResult<T, R>)
    ensures r.MapItself? <==> c.MapNoArgs?
    ensures !c.MapNoArgs? ==>
              r.MapFunction? &&
              forall xs :: |r.apply(xs)| == |xs| &&
                           forall i :: 0 <= i < |xs| ==> r.apply(xs)[i] == c.mapper(xs[i])
  {
    match c
    case MapNoArgs => MapItself
    case MapMapper(mapper) => MapFunction((subInput: seq<T>) => MapSeq(mapper, subInput))
    case MapMapperInput(mapper, _) => MapFunction((input: seq<T>) => MapSeq(mapper, input))
  }

  /** `map(f)(xs)` is `xs.map(f)`: same length, element `i` is `f(xs[i])`. */
  lemma MapPartialMapsElementwise<T(!new), R>(f: T -> R, xs: seq<T>)
    ensures Map(MapMapper(f)).MapFunction?
    ensures |Map(MapMapper(f)).apply(xs)| == |xs|
    ensures forall i :: 0 <= i < |xs| ==> Map(MapMapper(f)).apply(xs)[i] == f(xs[i])
  {
  }

  /**
   * The function that `map(f, xs)` returns ignores `xs`: on every array it
   * behaves as the function `map(f)` returns. (That the result is a function
   * at all is already fixed by `MapResult`, which has no array case.)
   */
  lemma MapFullCallReturnsFunction<T(!new), R>(f: T -> R, xs: seq<T>, ys: seq<T>)
    ensures Map(MapMapperInput(f, xs)).MapFunction?
    ensures Map(MapMapperInput(f, xs)).apply(ys) == Map(MapMapper(f)).apply(ys)
  {
  }

  /** Applying the function that `map(f, xs)` returns to `xs` itself gives the mapped array. */
  lemma MapShapesAgree<T(!new), R>(f: T -> R, xs: seq<T>)
    ensures Map(MapMapperInput(f, xs)).apply(xs) == Map(MapMapper(f)).apply(xs) == MapSeq(f, xs)
  {
  }

  /** `map(x => x * 2)([1, 2, 3])` is `[2, 4, 6]`. */
  lemma MapDoubles()
    ensures Map(MapMapper((x: int) => x * 2)).apply([1, 2, 3]) == [2, 4, 6]
  {
    var r := Map(MapMapper((x: int) => x * 2)).apply([1, 2, 3]);
    assert |r| == 3 && r[0] == 2 && r[1] == 4 && r[2] == 6;
  }

  /** The call shapes of `filter`: no argument, the predicate alone, or the predicate and an input array. */
  datatype FilterCall<!T> =
    | FilterNoArgs
    | FilterPredicate(filterer: T -> bool)
    | FilterPredicateInput(filterer: T -> bool, input: seq<T>)

  /** What `filter` hands back: `filter` itself, or a function from arrays to arrays. */
  datatype FilterResult<!T> = FilterItself | FilterFunction(apply: seq<T> -> seq<T>)

  /**
   * `filter`. With no argument it returns itself; otherwise it returns a
   * function whose result, for any array, is no longer than it, holds only
   * elements that pass the predicate, is a subsequence of it, and keeps every
   * passing element as often as it occurs. The two-argument call also returns
   * such a function and ignores the input it was given.
   */
  function Filter<T(!new)>(c: FilterCall<T>): (r: FilterResult<T>)
    ensures r.FilterItself? <==> c.FilterNoArgs?
    ensures !c.FilterNoArgs? ==>
              r.FilterFunction? &&
              forall xs ::
                && |r.apply(xs)| <= |xs|
                && (forall i :: 0 <= i < |r.apply(xs)| ==> c.filterer(r.apply(xs)[i]))
                && IsSubsequence(r.apply(xs), xs)
                && multiset(r.apply(xs)) <= multiset(xs)
                && (forall i :: 0 <= i < |xs| && c.filterer(xs[i]) ==>
                      multiset(r.apply(xs))[xs[i]] == multiset(xs)[xs[i]])
  {
    match c
    case FilterNoArgs => FilterItself
    case FilterPredicate(filterer) => FilterFunction((subInput: seq<T>) => FilterSeq(filterer, subInput))
    case FilterPredicateInput(filterer, _) => FilterFunction((input: seq<T>) => FilterSeq(filterer, input))
  }

  /**
   * The function that `filter(p, xs)` returns ignores `xs`: on every array it
   * behaves as the function `filter(p)` returns. (That the result is a
   * function at all is already fixed by `FilterResult`, which has no array case.)
   */
  lemma FilterFullCallReturnsFunction<T(!new)>(p: T -> bool, xs: seq<T>, ys: seq<T>)
    ensures Filter(FilterPredicateInput(p, xs)).FilterFunction?
    ensures Filter(FilterPredicateInput(p, xs)).apply(ys) == Filter(FilterPredicate(p)).apply(ys)
  {
  }

  /** Applying the function that `filter(p, xs)` returns to `xs` itself gives the filtered array. */
  lemma FilterShapesAgree<T(!new)>(p: T -> bool, xs: seq<T>)
    ensures Filter(FilterPredicateInput(p, xs)).apply(xs) == Filter(FilterPredicate(p)).apply(xs) == FilterSeq(p, xs)
  {
  }
}
