/** The program objects the patcher rewrites: ugo.CompiledFunction and
    ugo.Bytecode, reduced to the fields the patcher reads and replaces. */
module Program {
  import opened Ugo
  import Gosched

  class CompiledFunction {
    var instructions: seq<byte>
    /** Instruction position to source position. */
    var sourceMap: map<int, int>

    constructor (instructions: seq<byte>, sourceMap: map<int, int>)
      ensures this.instructions == instructions && this.sourceMap == sourceMap
    {
      this.instructions := instructions;
      this.sourceMap := sourceMap;
    }
  }

  /** The constants of a program that matter here: compiled functions, the
      gosched callable, and every other value. */
  datatype Object =
    | FunctionObject(fn: CompiledFunction)
    | GoschedObject(g: Gosched.GoschedFunc)
    | OtherObject

  class Bytecode {
    var main: CompiledFunction
    var constants: seq<Object>

    constructor (main: CompiledFunction, constants: seq<Object>)
      ensures this.main == main && this.constants == constants
    {
      this.main := main;
      this.constants := constants;
    }

    /** The functions a patch visits, in order: Main, then every compiled
        function among the constants. */
    ghost function Functions(): seq<CompiledFunction>
      reads this
    {
      [main] + FunctionsIn(constants)
    }

    /** The functions a patch may change. */
    ghost function FunctionSet(): set<CompiledFunction>
      reads this
    {
      set fn | fn in Functions()
    }

    /** No function is visited twice. */
    ghost predicate Distinct()
      reads this
    {
      var fs := Functions();
      forall i, j :: 0 <= i < j < |fs| ==> fs[i] != fs[j]
    }
  }

  /** The compiled functions among `cs`, in index order. */
  function FunctionsIn(cs: seq<Object>): seq<CompiledFunction> {
    if cs == [] then []
    else
      var last := cs[|cs| - 1];
      FunctionsIn(cs[..|cs| - 1]) + (if last.FunctionObject? then [last.fn] else [])
  }

  /** The compiled functions among allocated constants are allocated. */
  lemma {:induction false} FunctionsInAllocated(cs: seq<Object>)
    ensures forall i :: 0 <= i < |FunctionsIn(cs)| ==> allocated(FunctionsIn(cs)[i])
  {
    if cs != [] {
      FunctionsInAllocated(cs[..|cs| - 1]);
    }
  }

  /** Functions of a prefix are a prefix of the functions. */
  lemma {:induction false} FunctionsInPrefix(cs: seq<Object>, i: nat)
    requires i <= |cs|
    ensures FunctionsIn(cs[..i]) <= FunctionsIn(cs)
    decreases |cs| - i
  {
    if i < |cs| {
      FunctionsInPrefix(cs, i + 1);
      assert cs[..i + 1][..i] == cs[..i];
    } else {
      assert cs[..i] == cs;
    }
  }

  /** One more constant adds its function, if it is one. */
  lemma FunctionsInStep(cs: seq<Object>, i: nat)
    requires i < |cs|
    ensures FunctionsIn(cs[..i + 1]) == FunctionsIn(cs[..i]) + (if cs[i].FunctionObject? then [cs[i].fn] else [])
  {
    assert cs[..i + 1][..i] == cs[..i];
  }

  /** The function a patch visits after the functions of `cs[..i]`, when
      constant `i` is a compiled function, is that function. */
  lemma FunctionAfter(main: CompiledFunction, cs: seq<Object>, i: nat)
    requires i < |cs| && cs[i].FunctionObject?
    ensures var fs := [main] + FunctionsIn(cs);
      1 + |FunctionsIn(cs[..i])| < |fs| && fs[1 + |FunctionsIn(cs[..i])|] == cs[i].fn
  {
    FunctionsInStep(cs, i);
    FunctionsInPrefix(cs, i + 1);
    var pre := FunctionsIn(cs[..i + 1]);
    assert pre[|pre| - 1] == cs[i].fn;
    assert FunctionsIn(cs)[|pre| - 1] == pre[|pre| - 1];
  }

  /** Where patch's walk stands: `cidx` is the constant index of the
      current function `cur` (-1 for Main), and `k` its place in the
      visiting order. */
  predicate Visiting(main: CompiledFunction, cs: seq<Object>, cidx: int, k: nat, cur: CompiledFunction) {
    && -1 <= cidx <= |cs|
    && (cidx == -1 ==> k == 0 && cur == main)
    && (0 <= cidx ==> k == 1 + |FunctionsIn(cs[..cidx])|)
    && (0 <= cidx < |cs| ==> cs[cidx] == FunctionObject(cur))
  }

  /** Before the end of the constants, the current function is the `k`-th
      function visited. */
  lemma VisitingFunction(main: CompiledFunction, cs: seq<Object>, cidx: int, k: nat, cur: CompiledFunction)
    requires Visiting(main, cs, cidx, k, cur) && cidx < |cs|
    ensures var fs := [main] + FunctionsIn(cs); k < |fs| && fs[k] == cur
  {
    if 0 <= cidx {
      FunctionAfter(main, cs, cidx);
    }
  }

  /** At the end of the constants every function has been visited. */
  lemma VisitingEnd(main: CompiledFunction, cs: seq<Object>, k: nat, cur: CompiledFunction)
    requires Visiting(main, cs, |cs|, k, cur)
    ensures k == |[main] + FunctionsIn(cs)|
  {
    assert cs[..|cs|] == cs;
  }

  /** Moving past the current function to the next compiled function among
      the constants (or to their end) visits the next function. */
  lemma VisitingNext(main: CompiledFunction, cs: seq<Object>, cidx: int, k: nat, cur: CompiledFunction,
                     next: nat, cur': CompiledFunction)
    requires Visiting(main, cs, cidx, k, cur) && cidx < |cs|
    requires cidx + 1 <= next <= |cs| && FunctionsIn(cs[..next]) == FunctionsIn(cs[..cidx + 1])
    requires next < |cs| ==> cs[next] == FunctionObject(cur')
    ensures Visiting(main, cs, next, k + 1, cur')
  {
    if 0 <= cidx {
      FunctionsInStep(cs, cidx);
    }
  }
}
