# Arity-dispatched functional utilities, modelled in Dafny

This project models a small functional utility library (`14/index.ts`): `map`, `filter`,
`reduce`, `add`, `subtract`, `prop` and `pipe`. Each operation looks at how many arguments
its caller supplied. With none it returns itself. Called partially, it returns a closure over
the arguments it has. Called fully, it computes the result (with the exceptions below).

How the model is laid out:

- Each operation's call shapes are a datatype, for example `BinaryCall = NoArgs | OneArg(a) | TwoArgs(a, b)`.
  An evaluator function dispatches on that datatype.
- Each operation's result is a datatype too. `...Itself` stands for the operation handed back.
  A closure is a Dafny function value, and a computed value is a plain constructor.
- `pipe`'s closure is an exception. Its body is a loop, so the closure is kept as the sequence of
  functions it captured, and the method `RunPipeline` runs that loop.
- Arrays are immutable sequences. `Array.prototype.map`, `filter` and `reduce` (the host methods the
  library calls) are the recursive functions `MapSeq`, `FilterSeq` and `FoldLeft` in module `ArrayMethods`.
- Numbers are integers. A property read gives `Defined(v)` or `Undefined`. A call that can throw
  gives a `Completion`: `Normal(v)` or `Throw(TypeError)`.
- The string transformers of `11/declarations/str-utils/index.d.ts` have no bodies in the repository.
  They are modelled as parameters of type `string -> string`.

Where the doc-comments and the code disagree, the model follows the code:

- `map(f, xs)` and `filter(p, xs)` return a function, not an array (`14/index.ts:55`, `14/index.ts:84`).
  That function ignores `xs` and is the same function `map(f)` / `filter(p)` returns.
  The doc-comments at `14/index.ts:31-34` and `14/index.ts:59-62` say an array comes back.
- `reduce(r)` returns a function that always treats its arguments as `(initialValue, input)`
  (`14/index.ts:124-127`). Called with fewer than two arguments, it evaluates `undefined.reduce`
  and throws a TypeError. It does not return itself or a further function, as the doc-comment at
  `14/index.ts:97-107` describes. So `reduce(r)(i)(s)` throws. Only `reduce(r)(i, s)`,
  `reduce(r, i)(s)` and `reduce(r, i, s)` agree.

## Model

| member | source | states |
|---|---|---|
| `ArrayMethods.MapSeq` | 14/index.ts:52 | `xs.map(f)` has the length of `xs`, and element `i` is `f(xs[i])` |
| `ArrayMethods.FilterSeq` | 14/index.ts:81 | `xs.filter(p)` is no longer than `xs` and holds only elements passing `p`. It is a subsequence of `xs` and its multiset is within that of `xs`. Every passing element of `xs` keeps all its occurrences |
| `ArrayMethods.FoldLeft` | 14/index.ts:126-134 | `xs.reduce(f, init)`: an empty array folds to the initial value; otherwise the last element is absorbed last, into the fold of all the others |
| `ArrayMethods.FoldLeftAppend` | 14/index.ts:126 | folding `xs + ys` is folding `ys` from the fold of `xs` |
| `ArrayMethods.FoldLeftStep` | 14/index.ts:126 | folding the first `k + 1` elements is the reducer applied to the fold of the first `k` and element `k` |
| `Collections.Map` | 14/index.ts:46-56 | no arguments gives `map` itself. Any other shape gives a function that maps every array element-wise, keeping its length |
| `Collections.MapPartialMapsElementwise` | 14/index.ts:50-53 | `map(f)(xs)` has the length of `xs`, and element `i` is `f(xs[i])` |
| `Collections.MapFullCallReturnsFunction` | 14/index.ts:55 | the function `map(f, xs)` returns ignores `xs`: on every array it behaves like `map(f)` (that it is a function follows from the result type) |
| `Collections.MapShapesAgree` | 14/index.ts:50-55 | `map(f, xs)(xs) == map(f)(xs) == xs.map(f)` |
| `Collections.MapDoubles` | 14/index.ts:50-53 | `map(x => x * 2)([1, 2, 3]) == [2, 4, 6]` |
| `Collections.Filter` | 14/index.ts:75-85 | no arguments gives `filter` itself. Any other shape gives a function whose result, on every array, is a length-bounded subsequence of passing elements that keeps every passing occurrence |
| `Collections.FilterFullCallReturnsFunction` | 14/index.ts:84 | the function `filter(p, xs)` returns ignores `xs`: on every array it behaves like `filter(p)` (that it is a function follows from the result type) |
| `Collections.FilterShapesAgree` | 14/index.ts:79-84 | `filter(p, xs)(xs) == filter(p)(xs) == xs.filter(p)` |
| `Reduction.CurriedReduce` | 14/index.ts:125-127 | the closure of `reduce(r)` returns normally exactly when given both an initial value and an array. It then yields the initial value for an empty array, and otherwise the reducer applied to the fold of all but the last element and the last element |
| `Reduction.Reduce` | 14/index.ts:116-135 | no arguments gives itself. One argument gives the two-argument closure. Two give a function that maps `[]` to the initial value. Three give a value: the initial value on an empty array, otherwise the reducer applied to the fold of all but the last element and the last element |
| `Reduction.ReduceShapesAgree` | 14/index.ts:124-134 | `reduce(r)(i, s) == reduce(r, i)(s) == reduce(r, i, s)`, the left fold of `s` from `i` |
| `Reduction.CurriedReduceHasNoNestedDispatch` | 14/index.ts:124-127 | `reduce(r)(i)` and `reduce(r)()` throw a TypeError and return no function |
| `Reduction.ReduceFoldsLeftToRight` | 14/index.ts:134 | `reduce(r, i, xs + [x]) == r(reduce(r, i, xs), x)` |
| `Reduction.ReduceSums` | 14/index.ts:134 | `reduce((a, b) => a + b, 0, [1, 2, 3, 4]) == 10` |
| `Arithmetic.Add` | 14/index.ts:149-159 | no arguments gives `add` itself. `add(a)` is a function returning `a + b` for every `b`. `add(a, b)` is `a + b` |
| `Arithmetic.Subtract` | 14/index.ts:175-185 | no arguments gives `subtract` itself. `subtract(a)` is a function returning `a - b` for every `b`. `subtract(a, b)` is `a - b` |
| `Arithmetic.AddShapesAgree` | 14/index.ts:153-158 | `add(a)(b) == add(a, b) == a + b` |
| `Arithmetic.SubtractShapesAgree` | 14/index.ts:179-184 | `subtract(a)(b) == subtract(a, b) == a - b` |
| `Arithmetic.SubtractUndoesAdd` | 14/index.ts:149-185 | `subtract(add(a, b), b) == a`, and likewise through the one-argument shapes |
| `PropAccess.Get` | 14/index.ts:208 | `obj[name]` is defined exactly when `obj` has `name`, and it is then the stored value |
| `PropAccess.Prop` | 14/index.ts:202-212 | no arguments gives `prop` itself, and the object alone gives a function. Object and name give a value that is defined exactly when the object has the name, and is then the stored value |
| `PropAccess.PropShapesAgree` | 14/index.ts:206-211 | `prop(obj)(k) == prop(obj, k)`, which is `obj[k]` when `k` is a property of `obj` |
| `PropAccess.PropReadsX` | 14/index.ts:206-211 | `prop({x: 5})('x')` and `prop({x: 5}, 'x')` are both `5` |
| `Composition.Pipe` | 14/index.ts:236-241 | no functions gives `pipe` itself. Otherwise the result is a pipeline over exactly the given functions, at least one |
| `Composition.RunPipeline` | 14/index.ts:243-249 | the closure applies the first function to the input and then each later function in order; the result is `Piped(functions, input)` |
| `Composition.PipedAppend` | 14/index.ts:244-247 | piping through `fs + gs` is piping through `fs` and then `gs` |
| `Composition.PipedIsThreadThrough` | 14/index.ts:244-247 | the loop's order agrees with threading the value from the first function onward |
| `Composition.PipedStep` | 14/index.ts:245-246 | `Piped`'s step equation on prefixes: piping through the first `k + 1` functions is `functions[k]` applied to the output of the first `k`; `RunPipeline`'s loop uses it for each step |
| `Composition.PipeSingle` | 14/index.ts:243-249 | `pipe(f)(x) == f(x)` |
| `Composition.PipeThree` | 14/index.ts:243-249 | `pipe(f, g, h)(x) == h(g(f(x)))` |
| `Composition.UpperThenReverse` | 14/index.ts:243-249 | `pipe(strToUpper, strReverse)("abc")` is `strReverse(strToUpper("abc"))`, for any such transformers |

The zero-argument case of every operation is the first `ensures` of its evaluator
(`r.MapItself? <==> c.MapNoArgs?` and so on). It covers `14/index.ts:47-48`, `76-77`, `121-122`,
`150-151`, `176-177`, `203-204` and `239-240`.

## Left out

- Runtime argument counting and the untyped `Function` return type. Call shapes are explicit datatypes,
  and extra arguments beyond the full arity (which the code ignores) have no shape of their own.
- The self-reference returned by a zero-argument call. It is the `...Itself` constructor, not a function value that can be called again.
- Arithmetic: JavaScript numbers are IEEE doubles (rounding, `NaN`, string concatenation on `+`).
  `add` and `subtract` are modelled on unbounded integers.
- Closures called with missing arguments (`add(1)()` gives `NaN`, `map(f)()` throws). This is modelled
  only for the closure of `reduce(r)`, whose doc-comment claims a dispatch the code lacks.
- Host array details: holes in sparse arrays, and the index and array arguments that `map`, `filter` and
  `reduce` also pass to their callbacks. Callbacks are total functions of the element (and accumulator) alone.
- Mutation and aliasing. Arrays are values, so the fact that `map` and `filter` leave their input
  unchanged holds by construction and is not a separate property.
- `prop`: inherited properties from an object's prototype chain. An object is a finite map, and a missing name reads as `Undefined`.
- `pipe` over functions of different types (the TODO at `14/index.ts:227-231`). Every function is `T -> T`.
- Exceptions thrown by the functions that `pipe`, `map`, `filter` or `reduce` call. Dafny functions are total.
- The string transformers of `11/declarations/str-utils/index.d.ts`. They are declarations without bodies,
  so they appear only as parameters.
