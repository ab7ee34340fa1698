/**
 * `pipe` of the utility library: composition of a sequence of functions
 * from left to right. All functions have one type `T -> T`.
 */
module Composition {

  /**
   * What `pipe` hands back: `pipe` itself, or the composed function, which
   * keeps the functions it was given (at least one) and runs them when called
   * (`RunPipeline`).
   */
  datatype PipeResult<!T> = PipeItself | Pipeline(functions: seq<T -> T>)

  /** `pipe(...functions)`: itself when given no function, otherwise a pipeline over exactly these functions. */
  function Pipe<T>(functions: seq<T -> T>): (r: PipeResult<T>)
    ensures r.PipeItself? <==> functions == []
    ensures r.Pipeline? ==> r.functions == functions && |r.functions| >= 1
  {
    if functions == [] then PipeItself else Pipeline(functions)
  }

  /** The value `x` becomes after passing through `fs` in order: the last function applies to the output of all before it. */
  function Piped<T>(fs: seq<T -> T>, x: T): T
    decreases |fs|
  {
    if fs == [] then x else fs[|fs| - 1](Piped(fs[..|fs| - 1], x))
  }

  /** Reference reading of the same chain: apply the first function, then send its output through the rest. */
  function ThreadThrough<T>(fs: seq<T -> T>, x: T): T
    decreases |fs|
  {
    if fs == [] then x else ThreadThrough(fs[1..], fs[0](x))
  }

  /**
   * The body of the function `pipe` returns: `result` starts as the first
   * function applied to `input`, then each later function is applied to it
   * once, in order.
   */
  method RunPipeline<T>(functions: seq<T -> T>, input: T) returns (result: T)
    requires |functions| >= 1
    ensures result == Piped(functions, input)
  {
    result := functions[0](input);
    assert functions[..1][..0] == [];
    var i := 1;
    while i < |functions|
      invariant 1 <= i <= |functions|
      invariant result == Piped(functions[..i], input)
    {
      PipedStep(functions, i, input);
      result := functions[i](result);
      i := i + 1;
    }
    assert functions[..i] == functions;
  }

  /** Piping through `fs` and then `gs` is piping through `fs + gs`. */
  lemma {:induction false} PipedAppend<T>(fs: seq<T -> T>, gs: seq<T -> T>, x: T)
    ensures Piped(fs + gs, x) == Piped(gs, Piped(fs, x))
    decreases |gs|
  {
    if gs == [] {
      assert fs + gs == fs;
    } else {
      var n := |gs| - 1;
      assert (fs + gs)[..|fs + gs| - 1] == fs + gs[..n];
      PipedAppend(fs, gs[..n], x);
    }
  }

  /** The loop's order of application agrees with threading the value from the first function onward. */
  lemma {:induction false} PipedIsThreadThrough<T>(fs: seq<T -> T>, x: T)
    ensures Piped(fs, x) == ThreadThrough(fs, x)
    decreases |fs|
  {
    if fs != [] {
      assert fs == [fs[0]] + fs[1..];
      PipedAppend([fs[0]], fs[1..], x);
      assert [fs[0]][..0] == [];
      PipedIsThreadThrough(fs[1..], fs[0](x));
    }
  }

  /**
   * The step equation of `Piped` on prefixes: piping through the first
   * `k + 1` functions applies function `k` to the output of the first `k`.
   */
  lemma {:induction false} PipedStep<T>(fs: seq<T -> T>, k: nat, x: T)
    requires k < |fs|
    ensures Piped(fs[..k + 1], x) == fs[k](Piped(fs[..k], x))
  {
    assert fs[..k + 1][..k] == fs[..k];
  }

  /** `pipe(f)(x) == f(x)`. */
  lemma PipeSingle<T>(f: T -> T, x: T)
    ensures Pipe([f]).Pipeline?
    ensures Piped(Pipe([f]).functions, x) == f(x)
  {
    assert [f][..0] == [];
  }

  /** `pipe(f, g, h)(x) == h(g(f(x)))`. */
  lemma PipeThree<T>(f: T -> T, g: T -> T, h: T -> T, x: T)
    ensures Pipe([f, g, h]).Pipeline?
    ensures Piped(Pipe([f, g, h]).functions, x) == h(g(f(x)))
  {
    assert [f, g, h][..2] == [f, g];
    assert [f, g][..1] == [f];
    assert [f][..0] == [];
    assert Piped([f], x) == f(x);
    assert Piped([f, g], x) == g(f(x));
  }

  /** `pipe(strToUpper, strReverse)("abc")` turns "abc" to upper case, then reverses it. */
  method UpperThenReverse(strToUpper: string -> string, strReverse: string -> string) returns (s: string)
    ensures s == strReverse(strToUpper("abc"))
  {
    var p := Pipe([strToUpper, strReverse]);
    s := RunPipeline(p.functions, "abc");
    assert [strToUpper, strReverse][..1] == [strToUpper];
    assert [strToUpper][..0] == [];
    assert Piped([strToUpper], "abc") == strToUpper("abc");
  }
}
