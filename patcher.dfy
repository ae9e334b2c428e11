/** bytecodePatcher of patcher/patcher.go: the object that walks every
    function of a program, records its jump operands, regenerates its
    instructions with the policy's insertions, moves the recorded operands
    and the source map along, and rewrites the moved operands. Each pass is
    proved against the value-level definitions of PatchSpec. */
module Patcher {
  import opened Ugo
  import opened Decoder
  import opened Relocation
  import opened Scan
  import opened Generation
  import opened Update
  import opened PatchSpec
  import opened Program

  /** A record after one more insertion. */
  lemma FoldRecordSnoc(isa: Isa, r: PosJump, outs: seq<Insertion>, ins: Insertion)
    ensures FoldRecord(isa, r, outs + [ins]) == FoldRecord(isa, r, outs).InsertAt(isa, ins)
  {
    assert (outs + [ins])[..|outs|] == outs;
  }

  /** A position after one more insertion. */
  lemma FoldPosSnoc(x: int, outs: seq<Insertion>, ins: Insertion)
    ensures FoldPos(x, outs + [ins]) == ShiftPos(FoldPos(x, outs), ins)
  {
    assert (outs + [ins])[..|outs|] == outs;
  }

  /** One more planned insertion, seen in output coordinates. */
  lemma ToOutputSnoc(plan: seq<Insertion>, ins: Insertion)
    ensures ToOutput(plan + [ins]) == ToOutput(plan) + [Insertion(ins.at + Total(plan), ins.size)]
    ensures Total(plan + [ins]) == Total(plan) + ins.size
  {
    assert (plan + [ins])[..|plan|] == plan;
  }

  /** The records after the insertions of `plan`, moved once more for the
      next planned insertion, are those after `plan + [ins]`. */
  lemma RecordsOnceMore(isa: Isa, j0: seq<PosJump>, plan: seq<Insertion>, ins: Insertion, jumps: seq<PosJump>)
    requires |jumps| == |j0|
    requires forall i :: 0 <= i < |jumps| ==>
      jumps[i] == FoldRecords(isa, j0, ToOutput(plan))[i].InsertAt(isa, Insertion(ins.at + Total(plan), ins.size))
    ensures jumps == FoldRecords(isa, j0, ToOutput(plan + [ins]))
  {
    var out := Insertion(ins.at + Total(plan), ins.size);
    var outs := ToOutput(plan);
    var want := FoldRecords(isa, j0, outs + [out]);
    assert jumps == want by {
      forall i | 0 <= i < |jumps| ensures jumps[i] == want[i] {
        FoldRecordSnoc(isa, j0[i], outs, out);
      }
    }
    assert ToOutput(plan + [ins]) == outs + [out] by {
      ToOutputSnoc(plan, ins);
    }
  }

  /** The same for the source-map keys. */
  lemma KeysOnceMore(k0: seq<int>, plan: seq<Insertion>, ins: Insertion, keys: seq<int>)
    requires |keys| == |k0|
    requires forall i :: 0 <= i < |keys| ==>
      keys[i] == ShiftPos(FoldKeys(k0, ToOutput(plan))[i], Insertion(ins.at + Total(plan), ins.size))
    ensures keys == FoldKeys(k0, ToOutput(plan + [ins]))
  {
    var out := Insertion(ins.at + Total(plan), ins.size);
    var outs := ToOutput(plan);
    var want := FoldKeys(k0, outs + [out]);
    assert keys == want by {
      forall i | 0 <= i < |keys| ensures keys[i] == want[i] {
        FoldPosSnoc(k0[i], outs, out);
      }
    }
    assert ToOutput(plan + [ins]) == outs + [out] by {
      ToOutputSnoc(plan, ins);
    }
  }

  lemma Associative<T>(a: seq<T>, b: seq<T>, c: seq<T>)
    ensures a + (b + c) == a + b + c
  {
  }

  /** The instruction at `q` is decoded, and decoding goes on after it. */
  predicate ScanNext(isa: Isa, insts: seq<byte>, q: nat)
    requires isa.Valid() && q < |insts| && insts[q] < |isa.operands|
  {
    var next := NextPos(isa, insts, q);
    && next <= |insts| && WellFormed(isa, insts, next)
    && RecordsFrom(isa, insts, q) == RecordsAt(isa, insts, q) + RecordsFrom(isa, insts, next)
    && ScanError(isa, insts, q) == ScanError(isa, insts, next)
  }

  /** One step of saveJumpPos's decoding at `q`: either the instruction
      there is decoded, or decoding stops with the scan's error. */
  lemma ScanAt(isa: Isa, insts: seq<byte>, q: nat)
    requires isa.Valid() && WellFormed(isa, insts, q)
    ensures q < |insts| && insts[q] < |isa.operands| ==> ScanNext(isa, insts, q)
    ensures !(q < |insts| && insts[q] < |isa.operands|) ==>
      && RecordsFrom(isa, insts, q) == []
      && ScanError(isa, insts, q) == if q < |insts| then Some(InvalidOpcode(insts[q], q)) else None
  {
  }

  /** Where generate stands after the instructions before input position
      `q`: `out` is what it has emitted, `plan` the insertions it has made,
      and the records and keys have been moved by them. */
  predicate Generating(isa: Isa, f: PatchFunc, insts: seq<byte>, q: nat, plan: seq<Insertion>, out: seq<byte>,
                       j0: seq<PosJump>, jumps: seq<PosJump>, k0: seq<int>, keys: seq<int>)
  {
    && WellFormed(isa, insts, 0) && WellFormed(isa, insts, q)
    && var all, rest := GenFrom(isa, f, insts, 0), GenFrom(isa, f, insts, q);
    && all.out == out + rest.out && all.plan == plan + rest.plan && all.err == rest.err
    && |out| == q + Total(plan)
    && jumps == FoldRecords(isa, j0, ToOutput(plan))
    && keys == FoldKeys(k0, ToOutput(plan))
  }

  /** Generation stops where decoding does. */
  lemma GenStops(isa: Isa, f: PatchFunc, insts: seq<byte>, q: nat)
    requires WellFormed(isa, insts, q) && !(q < |insts| && insts[q] < |isa.operands|)
    ensures GenFrom(isa, f, insts, q) == GenOut([], [], if q < |insts| then Some(InvalidOpcode(insts[q], q)) else None)
  {
  }

  /** One instruction of generate, as the loop body performs it: copied, or
      copied after the inserted bytes with the records and keys moved. */
  lemma GenerateStep(isa: Isa, f: PatchFunc, insts: seq<byte>, q: nat, plan: seq<Insertion>, out: seq<byte>,
                     j0: seq<PosJump>, jumps: seq<PosJump>, k0: seq<int>, keys: seq<int>,
                     out': seq<byte>, jumps': seq<PosJump>, keys': seq<int>) returns (plan': seq<Insertion>)
    requires Generating(isa, f, insts, q, plan, out, j0, jumps, k0, keys) && Fits(isa, insts, q)
    requires var (op, blob) := f(CursorAt(isa, insts, q));
      var inst := insts[q..NextPos(isa, insts, q)];
      var ins := Insertion(|out|, |blob|);
      && (op == PatchNext ==> out' == out + inst && jumps' == jumps && keys' == keys)
      && (op == PatchInsertBefore ==>
            && out' == out + blob + inst
            && |jumps'| == |jumps| && (forall i :: 0 <= i < |jumps'| ==> jumps'[i] == jumps[i].InsertAt(isa, ins))
            && |keys'| == |keys| && (forall i :: 0 <= i < |keys'| ==> keys'[i] == ShiftPos(keys[i], ins)))
      && (op == PatchNext || op == PatchInsertBefore)
    ensures Generating(isa, f, insts, NextPos(isa, insts, q), plan', out', j0, jumps', k0, keys')
    ensures |plan'| == |plan| + (if f(CursorAt(isa, insts, q)).0 == PatchInsertBefore then 1 else 0)
  {
    if f(CursorAt(isa, insts, q)).0 == PatchNext {
      GenerateCopy(isa, f, insts, q, plan, out, j0, jumps, k0, keys);
      plan' := plan;
    } else {
      plan' := GenerateInsert(isa, f, insts, q, plan, out, j0, jumps, k0, keys, jumps', keys');
    }
  }

  /** generate copies an instruction the policy lets through. */
  lemma GenerateCopy(isa: Isa, f: PatchFunc, insts: seq<byte>, q: nat, plan: seq<Insertion>, out: seq<byte>,
                     j0: seq<PosJump>, jumps: seq<PosJump>, k0: seq<int>, keys: seq<int>)
    requires Generating(isa, f, insts, q, plan, out, j0, jumps, k0, keys) && Fits(isa, insts, q)
    requires f(CursorAt(isa, insts, q)).0 == PatchNext
    ensures var next := NextPos(isa, insts, q);
      Generating(isa, f, insts, next, plan, out + insts[q..next], j0, jumps, k0, keys)
  {
    var next := NextPos(isa, insts, q);
    var inst := insts[q..next];
    var g, rest := GenFrom(isa, f, insts, q), GenFrom(isa, f, insts, next);
    var all := GenFrom(isa, f, insts, 0);
    assert g.out == inst + rest.out && g.plan == rest.plan && g.err == rest.err;
    Associative(out, inst, rest.out);
  }

  /** generate puts the policy's bytes before an instruction, moving the
      jump records and source-map keys behind them. */
  lemma GenerateInsert(isa: Isa, f: PatchFunc, insts: seq<byte>, q: nat, plan: seq<Insertion>, out: seq<byte>,
                       j0: seq<PosJump>, jumps: seq<PosJump>, k0: seq<int>, keys: seq<int>,
                       jumps': seq<PosJump>, keys': seq<int>) returns (plan': seq<Insertion>)
    requires Generating(isa, f, insts, q, plan, out, j0, jumps, k0, keys) && Fits(isa, insts, q)
    requires var (op, blob) := f(CursorAt(isa, insts, q));
      var ins := Insertion(|out|, |blob|);
      && op == PatchInsertBefore
      && |jumps'| == |jumps| && (forall i :: 0 <= i < |jumps'| ==> jumps'[i] == jumps[i].InsertAt(isa, ins))
      && |keys'| == |keys| && (forall i :: 0 <= i < |keys'| ==> keys'[i] == ShiftPos(keys[i], ins))
    ensures var next := NextPos(isa, insts, q);
      var blob := f(CursorAt(isa, insts, q)).1;
      Generating(isa, f, insts, next, plan', out + blob + insts[q..next], j0, jumps', k0, keys')
    ensures |plan'| == |plan| + 1
  {
    var blob := f(CursorAt(isa, insts, q)).1;
    var ins := Insertion(q, |blob|);
    plan' := plan + [ins];
    InsertLayout(isa, f, insts, q, plan, out);
    assert jumps' == FoldRecords(isa, j0, ToOutput(plan')) by {
      RecordsOnceMore(isa, j0, plan, ins, jumps');
    }
    assert keys' == FoldKeys(k0, ToOutput(plan')) by {
      KeysOnceMore(k0, plan, ins, keys');
    }
  }

  /** The bytes and the plan of generate, one insertion further. */
  lemma InsertLayout(isa: Isa, f: PatchFunc, insts: seq<byte>, q: nat, plan: seq<Insertion>, out: seq<byte>)
    requires WellFormed(isa, insts, 0) && WellFormed(isa, insts, q) && Fits(isa, insts, q)
    requires f(CursorAt(isa, insts, q)).0 == PatchInsertBefore
    requires var all, rest := GenFrom(isa, f, insts, 0), GenFrom(isa, f, insts, q);
      all.out == out + rest.out && all.plan == plan + rest.plan && all.err == rest.err
    requires |out| == q + Total(plan)
    ensures var next, blob := NextPos(isa, insts, q), f(CursorAt(isa, insts, q)).1;
      var plan' := plan + [Insertion(q, |blob|)];
      var all, rest := GenFrom(isa, f, insts, 0), GenFrom(isa, f, insts, next);
      && all.out == (out + blob + insts[q..next]) + rest.out
      && all.plan == plan' + rest.plan && all.err == rest.err
      && |out + blob + insts[q..next]| == next + Total(plan')
  {
    var blob := f(CursorAt(isa, insts, q)).1;
    var next := NextPos(isa, insts, q);
    var inst := insts[q..next];
    var g, rest := GenFrom(isa, f, insts, q), GenFrom(isa, f, insts, next);
    var all := GenFrom(isa, f, insts, 0);
    var ins := Insertion(q, |blob|);
    InsertBytes(isa, f, insts, q, out);
    assert all.plan == plan + [ins] + rest.plan && all.err == rest.err by {
      assert g.plan == [ins] + rest.plan && g.err == rest.err;
      Associative(plan, [ins], rest.plan);
    }
    assert |out + blob + inst| == next + Total(plan + [ins]) by {
      ToOutputSnoc(plan, ins);
    }
  }

  /** The bytes of generate, one insertion further. */
  lemma InsertBytes(isa: Isa, f: PatchFunc, insts: seq<byte>, q: nat, out: seq<byte>)
    requires WellFormed(isa, insts, 0) && WellFormed(isa, insts, q) && Fits(isa, insts, q)
    requires f(CursorAt(isa, insts, q)).0 == PatchInsertBefore
    requires GenFrom(isa, f, insts, 0).out == out + GenFrom(isa, f, insts, q).out
    ensures var next, blob := NextPos(isa, insts, q), f(CursorAt(isa, insts, q)).1;
      GenFrom(isa, f, insts, 0).out == (out + blob + insts[q..next]) + GenFrom(isa, f, insts, next).out
  {
    var blob := f(CursorAt(isa, insts, q)).1;
    var next := NextPos(isa, insts, q);
    var inst, rest := insts[q..next], GenFrom(isa, f, insts, next).out;
    assert GenFrom(isa, f, insts, q).out == blob + inst + rest;
    Regroup(out, blob, inst, rest);
  }

  /** Bytes appended in front of three pieces, regrouped. */
  lemma Regroup(out: seq<byte>, a: seq<byte>, b: seq<byte>, c: seq<byte>)
    ensures out + (a + b + c) == (out + a + b) + c
  {
  }

  /** When generate stops, everything it was to emit has been emitted. */
  lemma GenerateDone(isa: Isa, f: PatchFunc, insts: seq<byte>, q: nat, plan: seq<Insertion>, out: seq<byte>,
                     j0: seq<PosJump>, jumps: seq<PosJump>, k0: seq<int>, keys: seq<int>, e: Option<Error>)
    requires Generating(isa, f, insts, q, plan, out, j0, jumps, k0, keys)
    requires GenFrom(isa, f, insts, q) == GenOut([], [], e)
    ensures GenFrom(isa, f, insts, 0) == GenOut(out, plan, e)
  {
    assert out + [] == out && plan + [] == plan;
  }

  /** One function as patch finds it: its instructions, its source map, and
      the order in which that map's keys are read. */
  datatype FnInput = FnInput(insts: seq<byte>, sourceMap: map<int, int>, order: seq<int>)

  /** A whole patch: the error it stopped with, the outcome for every
      function it reached, and the insertions made. */
  datatype RunOut = RunOut(err: Option<Error>, results: seq<FnPatch>, inserted: nat)

  predicate Patchable(isa: Isa, ins: seq<FnInput>) {
    forall i :: 0 <= i < |ins| ==> WellFormed(isa, ins[i].insts, 0) && Enumerates(ins[i].order, ins[i].sourceMap)
  }

  /** patch over the functions in visiting order: each is patched in turn,
      and the first error stops the run. */
  function PatchRun(isa: Isa, f: PatchFunc, ins: seq<FnInput>): (run: RunOut)
    requires isa.Valid() && Patchable(isa, ins)
    ensures |run.results| <= |ins|
    decreases |ins|
  {
    if ins == [] then RunOut(None, [], 0)
    else
      var prev := PatchRun(isa, f, ins[..|ins| - 1]);
      if prev.err.Some? then prev
      else
        var last := ins[|ins| - 1];
        var r := PatchFunction(isa, f, last.insts, last.sourceMap, last.order);
        RunOut(r.err, prev.results + [r], prev.inserted + r.inserted)
  }

  /** What a function holds: its instructions and its source map. */
  datatype FnState = FnState(insts: seq<byte>, sourceMap: map<int, int>)

  /** What the functions hold after a run that produced `results`: the
      patched contents of the functions it reached (old contents for the one
      that failed), the old contents of the rest. */
  function Outcome(ins: seq<FnInput>, results: seq<FnPatch>): (r: seq<FnState>)
    requires |results| <= |ins|
    ensures |r| == |ins|
    ensures forall i :: 0 <= i < |results| ==> r[i] == FnState(results[i].insts, results[i].sourceMap)
    ensures forall i :: |results| <= i < |ins| ==> r[i] == FnState(ins[i].insts, ins[i].sourceMap)
  {
    seq(|ins|, i requires 0 <= i < |ins| =>
      if i < |results| then FnState(results[i].insts, results[i].sourceMap)
      else FnState(ins[i].insts, ins[i].sourceMap))
  }

  /** Patching one more function changes only its own entry. */
  lemma OutcomeNext(ins: seq<FnInput>, results: seq<FnPatch>, r: FnPatch)
    requires |results| < |ins|
    ensures Outcome(ins, results + [r]) == Outcome(ins, results)[|results| := FnState(r.insts, r.sourceMap)]
  {
  }

  /** The sum of the insertions of `rs`. */
  function Inserted(rs: seq<FnPatch>): nat {
    if rs == [] then 0 else Inserted(rs[..|rs| - 1]) + rs[|rs| - 1].inserted
  }

  /** What a run is made of: every function it reached is patched as on its
      own, all but the last succeeded, the run fails exactly when the last
      one reached failed, a run that does not fail reaches every function,
      and the insertions add up. */
  lemma PatchRunResults(isa: Isa, f: PatchFunc, ins: seq<FnInput>)
    requires isa.Valid() && Patchable(isa, ins)
    ensures var run := PatchRun(isa, f, ins);
      && |run.results| <= |ins|
      && (forall i :: 0 <= i < |run.results| ==>
            run.results[i] == PatchFunction(isa, f, ins[i].insts, ins[i].sourceMap, ins[i].order))
      && (forall i :: 0 <= i < |run.results| - 1 ==> run.results[i].err.None?)
      && (run.err.None? ==> |run.results| == |ins|)
      && (run.results != [] ==> run.err == run.results[|run.results| - 1].err)
      && (run.results == [] ==> run.err.None?)
      && run.inserted == Inserted(run.results)
  {
    PatchRunReached(isa, f, ins);
    PatchRunFails(isa, f, ins);
    PatchRunInserted(isa, f, ins);
  }

  /** Every function a run reached is patched as on its own. */
  lemma {:induction false} PatchRunReached(isa: Isa, f: PatchFunc, ins: seq<FnInput>)
    requires isa.Valid() && Patchable(isa, ins)
    ensures var run := PatchRun(isa, f, ins);
      forall i :: 0 <= i < |run.results| ==>
        run.results[i] == PatchFunction(isa, f, ins[i].insts, ins[i].sourceMap, ins[i].order)
    decreases |ins|
  {
    if ins != [] {
      var init := ins[..|ins| - 1];
      assert Patchable(isa, init);
      PatchRunReached(isa, f, init);
      var prev := PatchRun(isa, f, init);
      if prev.err.None? {
        PatchRunFails(isa, f, init);
        ReachedNext(isa, f, ins);
      } else {
        forall i | 0 <= i < |prev.results|
          ensures prev.results[i] == PatchFunction(isa, f, ins[i].insts, ins[i].sourceMap, ins[i].order)
        {
          assert ins[i] == init[i];
        }
      }
    }
  }

  /** A run that got through all but the last function patches that one
      too, after the others. */
  lemma ReachedNext(isa: Isa, f: PatchFunc, ins: seq<FnInput>)
    requires isa.Valid() && Patchable(isa, ins) && ins != []
    requires Patchable(isa, ins[..|ins| - 1])
    requires var prev := PatchRun(isa, f, ins[..|ins| - 1]);
      && prev.err.None? && |prev.results| == |ins| - 1
      && forall i :: 0 <= i < |prev.results| ==>
           prev.results[i] == PatchFunction(isa, f, ins[i].insts, ins[i].sourceMap, ins[i].order)
    ensures var run := PatchRun(isa, f, ins);
      forall i :: 0 <= i < |run.results| ==>
        run.results[i] == PatchFunction(isa, f, ins[i].insts, ins[i].sourceMap, ins[i].order)
  {
    var init, last := ins[..|ins| - 1], ins[|ins| - 1];
    var prev := PatchRun(isa, f, init);
    var r := PatchFunction(isa, f, last.insts, last.sourceMap, last.order);
    var rs := PatchRun(isa, f, ins).results;
    assert rs == prev.results + [r];
    forall i | 0 <= i < |rs|
      ensures rs[i] == PatchFunction(isa, f, ins[i].insts, ins[i].sourceMap, ins[i].order)
    {
      if i < |prev.results| {
        assert rs[i] == prev.results[i];
      } else {
        assert rs[i] == r;
      }
    }
  }

  /** All but the last function reached succeeded, the run fails exactly
      when the last one reached failed, and a run that does not fail
      reaches every function. */
  lemma {:induction false} PatchRunFails(isa: Isa, f: PatchFunc, ins: seq<FnInput>)
    requires isa.Valid() && Patchable(isa, ins)
    ensures var run := PatchRun(isa, f, ins);
      && (forall i :: 0 <= i < |run.results| - 1 ==> run.results[i].err.None?)
      && (run.err.None? ==> |run.results| == |ins|)
      && (run.results != [] ==> run.err == run.results[|run.results| - 1].err)
      && (run.results == [] ==> run.err.None?)
    decreases |ins|
  {
    if ins != [] {
      var init := ins[..|ins| - 1];
      assert Patchable(isa, init);
      PatchRunFails(isa, f, init);
    }
  }

  /** The insertions of a run add up over the functions it reached. */
  lemma {:induction false} PatchRunInserted(isa: Isa, f: PatchFunc, ins: seq<FnInput>)
    requires isa.Valid() && Patchable(isa, ins)
    ensures var run := PatchRun(isa, f, ins); run.inserted == Inserted(run.results)
    decreases |ins|
  {
    if ins != [] {
      var init := ins[..|ins| - 1];
      assert Patchable(isa, init);
      PatchRunInserted(isa, f, init);
      var prev := PatchRun(isa, f, init);
      if prev.err.None? {
        var rs := PatchRun(isa, f, ins).results;
        assert rs[..|rs| - 1] == prev.results;
      }
    }
  }

  /** A run that has not failed goes on with the next function. */
  lemma PatchRunNext(isa: Isa, f: PatchFunc, ins: seq<FnInput>, k: nat)
    requires isa.Valid() && Patchable(isa, ins) && k < |ins|
    requires PatchRun(isa, f, ins[..k]).err.None?
    ensures var prev, r := PatchRun(isa, f, ins[..k]), PatchFunction(isa, f, ins[k].insts, ins[k].sourceMap, ins[k].order);
      PatchRun(isa, f, ins[..k + 1]) == RunOut(r.err, prev.results + [r], prev.inserted + r.inserted)
  {
    assert ins[..k + 1][..k] == ins[..k];
  }

  /** Once a run has failed, the functions after the failing one are never
      reached. */
  lemma {:induction false} PatchRunStopped(isa: Isa, f: PatchFunc, ins: seq<FnInput>, k: nat)
    requires isa.Valid() && Patchable(isa, ins) && k <= |ins|
    requires PatchRun(isa, f, ins[..k]).err.Some?
    ensures PatchRun(isa, f, ins) == PatchRun(isa, f, ins[..k])
    decreases |ins| - k
  {
    if k < |ins| {
      assert ins[..k + 1][..k] == ins[..k];
      PatchRunStopped(isa, f, ins, k + 1);
    } else {
      assert ins[..k] == ins;
    }
  }

  /** The contents of `fs`, as values. */
  ghost function Snapshot(fs: seq<CompiledFunction>): (r: seq<FnState>)
    reads fs
    ensures |r| == |fs| && forall i :: 0 <= i < |fs| ==> r[i] == FnState(fs[i].instructions, fs[i].sourceMap)
  {
    seq(|fs|, i reads fs requires 0 <= i < |fs| => FnState(fs[i].instructions, fs[i].sourceMap))
  }

  /** patch's inner loop: the first compiled function among the constants
      from index `from` on, or `|cs|` when there is none. */
  method NextFunction(cs: seq<Object>, from: nat, cur: CompiledFunction) returns (next: int, nextFn: CompiledFunction)
    requires from <= |cs|
    ensures from <= next <= |cs|
    ensures FunctionsIn(cs[..next]) == FunctionsIn(cs[..from])
    ensures next < |cs| ==> cs[next] == FunctionObject(nextFn)
  {
    next, nextFn := from, cur;
    while next < |cs|
      invariant from <= next <= |cs|
      invariant FunctionsIn(cs[..next]) == FunctionsIn(cs[..from])
    {
      if cs[next].FunctionObject? {
        nextFn := cs[next].fn;
        return;
      }
      FunctionsInStep(cs, next);
      next := next + 1;
    }
  }

  class BytecodePatcher {
    const isa: Isa
    const it: InstsIterator
    var bc: Bytecode
    /** The jump operands recorded by saveJumpPos, moved by insertAt. */
    var jumps: seq<PosJump>
    const smap: SourceMapper
    var newInsts: seq<byte>
    var curInsts: seq<byte>
    const modifier: PatchFunc
    /** Insertions made so far: the count PatchForGosched's policy keeps, as
        generate inserts exactly when the policy answers patchInsertBefore. */
    var numInserts: nat

    ghost predicate Valid()
      reads this, it, smap
    {
      it.Valid() && it.isa == isa && smap.Valid()
    }

    /** newBytecodePatcher; `opWidths` is the table getOpWidths builds. */
    constructor (isa: Isa, opWidths: seq<nat>, bc: Bytecode, modifier: PatchFunc)
      requires isa.Valid() && |opWidths| == |isa.operands|
      requires forall op :: 0 <= op < |opWidths| ==> opWidths[op] == isa.Width(op)
      ensures Valid() && fresh(it) && fresh(smap)
      ensures this.isa == isa && this.bc == bc && this.modifier == modifier
      ensures jumps == [] && newInsts == [] && curInsts == [] && numInserts == 0
    {
      this.isa := isa;
      this.bc := bc;
      this.modifier := modifier;
      it := new InstsIterator(isa, opWidths);
      smap := new SourceMapper();
      jumps, newInsts, curInsts, numInserts := [], [], [], 0;
    }

    /** What the policy sees of the instruction under the iterator. */
    lemma IteratorCursor()
      requires Valid() && it.OnInstruction() && it.insts == curInsts
      requires it.Pos() >= 0 && it.pos == NextPos(isa, curInsts, it.Pos())
      ensures Fits(isa, curInsts, it.Pos())
      ensures CursorAt(isa, curInsts, it.Pos()) == Cursor(it.Pos(), it.Opcode(), it.Operands())
    {
    }

    /** The switch of saveJumpPos: the jump operands of the instruction
        under the iterator. */
    method SaveCurrent()
      requires Valid() && it.OnInstruction() && it.insts == curInsts
      requires it.Pos() >= 0 && it.pos == NextPos(isa, curInsts, it.Pos())
      modifies this`jumps
      ensures Fits(isa, curInsts, it.Pos())
      ensures jumps == old(jumps) + RecordsAt(isa, curInsts, it.Pos())
    {
      ghost var c := Cursor(it.Pos(), it.Opcode(), it.Operands());
      var op := it.Opcode();
      if isa.IsSingleJump(op) || op == isa.opSetupTry {
        var pos := it.Pos();
        var operands := it.Operands();
        jumps := jumps + [PosJump(pos, operands[0], op, 0, false)];
        if op == isa.opSetupTry {
          jumps := jumps + [PosJump(pos, operands[1], op, 1, false)];
        }
      }
      assert jumps == old(jumps) + RecordsOf(isa, c);
      IteratorCursor();
    }

    /** saveJumpPos: one record per jump operand, in instruction order, and
        the iterator's error. */
    method SaveJumpPos() returns (err: Option<Error>)
      requires Valid() && WellFormed(isa, curInsts, 0)
      modifies this`jumps, it
      ensures Valid() && err == ScanError(isa, curInsts, 0) && jumps == RecordsFrom(isa, curInsts, 0)
    {
      jumps := [];
      it.Reset(curInsts);
      ghost var insts := curInsts;
      ghost var all, scanErr := RecordsFrom(isa, insts, 0), ScanError(isa, insts, 0);
      ghost var q: nat := 0;
      var more := it.Next();
      ScanAt(isa, insts, q);
      while more
        invariant Valid() && it.insts == insts == curInsts && WellFormed(isa, insts, q)
        invariant more <==> q < |insts| && insts[q] < |isa.operands|
        invariant more ==> && it.OnInstruction() && it.err == None && it.Pos() == q
                           && it.pos == NextPos(isa, insts, q) && ScanNext(isa, insts, q)
        invariant !more ==> it.err == ScanError(isa, insts, q) && RecordsFrom(isa, insts, q) == []
        invariant jumps + RecordsFrom(isa, insts, q) == all
        invariant ScanError(isa, insts, q) == scanErr
        decreases |insts| - q, more
      {
        ghost var before := jumps;
        SaveCurrent();
        Associative(before, RecordsAt(isa, insts, q), RecordsFrom(isa, insts, it.pos));
        q := it.pos;
        more := it.Next();
        ScanAt(isa, insts, q);
      }
      err := it.Error();
    }

    /** insertAt: moves every recorded jump operand and every source-map key
        for `ins.size` bytes inserted at output position `ins.at`. */
    method InsertAt(ins: Insertion)
      requires Valid()
      modifies this`jumps, smap
      ensures Valid() && |jumps| == |old(jumps)|
      ensures forall i :: 0 <= i < |jumps| ==> jumps[i] == old(jumps)[i].InsertAt(isa, ins)
      ensures smap.values == old(smap.values) && |smap.keys| == |old(smap.keys)|
      ensures forall i :: 0 <= i < |smap.keys| ==> smap.keys[i] == ShiftPos(old(smap.keys)[i], ins)
    {
      var i := 0;
      while i < |jumps|
        modifies this`jumps
        invariant 0 <= i <= |jumps| == |old(jumps)|
        invariant forall j :: 0 <= j < i ==> jumps[j] == old(jumps)[j].InsertAt(isa, ins)
        invariant forall j :: i <= j < |jumps| ==> jumps[j] == old(jumps)[j]
      {
        jumps := jumps[i := jumps[i].InsertAt(isa, ins)];
        i := i + 1;
      }
      smap.InsertAt(ins);
    }

    /** The body of generate's loop: asks the policy about the instruction
        under the iterator and copies it, after the inserted bytes when the
        policy asks for an insertion. */
    method GenerateCurrent() returns (err: Option<Error>)
      requires Valid() && it.OnInstruction() && it.insts == curInsts
      requires it.Pos() >= 0 && it.pos == NextPos(isa, curInsts, it.Pos())
      modifies this`jumps, this`newInsts, this`numInserts, smap
      ensures Valid() && Fits(isa, curInsts, it.Pos())
      ensures var (op, blob) := modifier(CursorAt(isa, curInsts, it.Pos()));
        var inst := curInsts[it.Pos()..it.pos];
        var ins := Insertion(|old(newInsts)|, |blob|);
        && (op == PatchNext ==>
              && err == None && newInsts == old(newInsts) + inst && numInserts == old(numInserts)
              && jumps == old(jumps) && smap.keys == old(smap.keys) && smap.values == old(smap.values))
        && (op == PatchInsertBefore ==>
              && err == None && newInsts == old(newInsts) + blob + inst && numInserts == old(numInserts) + 1
              && |jumps| == |old(jumps)|
              && (forall i :: 0 <= i < |jumps| ==> jumps[i] == old(jumps)[i].InsertAt(isa, ins))
              && smap.values == old(smap.values) && |smap.keys| == |old(smap.keys)|
              && (forall i :: 0 <= i < |smap.keys| ==> smap.keys[i] == ShiftPos(old(smap.keys)[i], ins)))
        && (op != PatchNext && op != PatchInsertBefore ==>
              && err == Some(UnknownPatchOp(op)) && newInsts == old(newInsts) && numInserts == old(numInserts)
              && jumps == old(jumps) && smap.keys == old(smap.keys) && smap.values == old(smap.values))
    {
      IteratorCursor();
      var op, blob := modifier(Cursor(it.Pos(), it.Opcode(), it.Operands())).0,
                      modifier(Cursor(it.Pos(), it.Opcode(), it.Operands())).1;
      var pos, offset := it.Pos(), it.Offset();
      if op == PatchNext {
        newInsts := newInsts + curInsts[pos..pos + offset + 1];
      } else if op == PatchInsertBefore {
        InsertAt(Insertion(|newInsts|, |blob|));
        numInserts := numInserts + 1;
        newInsts := newInsts + blob;
        newInsts := newInsts + curInsts[pos..pos + offset + 1];
      } else {
        return Some(UnknownPatchOp(op));
      }
      err := None;
    }

    /** One iteration of generate's loop, with where it leaves generation:
        `plan'` is the insertions made so far. */
    method GenerateNext(ghost q: nat, ghost plan: seq<Insertion>, ghost j0: seq<PosJump>, ghost k0: seq<int>)
      returns (err: Option<Error>, ghost plan': seq<Insertion>)
      requires Valid() && it.OnInstruction() && it.insts == curInsts
      requires it.Pos() == q && it.pos == NextPos(isa, curInsts, q)
      requires Generating(isa, modifier, curInsts, q, plan, newInsts, j0, jumps, k0, smap.keys)
      modifies this`jumps, this`newInsts, this`numInserts, smap
      ensures Valid() && smap.values == old(smap.values) && numInserts - |plan'| == old(numInserts) - |plan|
      ensures err.None? ==> Generating(isa, modifier, curInsts, it.pos, plan', newInsts, j0, jumps, k0, smap.keys)
      ensures err.Some? ==>
        && Generating(isa, modifier, curInsts, q, plan', newInsts, j0, jumps, k0, smap.keys)
        && GenFrom(isa, modifier, curInsts, 0) == GenOut(newInsts, plan', err)
    {
      ghost var out0, jumps0, keys0 := newInsts, jumps, smap.keys;
      err := GenerateCurrent();
      if err.Some? {
        plan' := plan;
        GenerateDone(isa, modifier, curInsts, q, plan, newInsts, j0, jumps, k0, smap.keys, err);
      } else {
        plan' := GenerateStep(isa, modifier, curInsts, q, plan, out0, j0, jumps0, k0, keys0, newInsts, jumps, smap.keys);
      }
    }

    /** generate: the new instructions with the policy's insertions, each
        insertion moving the records and source-map keys (insertAt). */
    method Generate() returns (err: Option<Error>)
      requires Valid() && WellFormed(isa, curInsts, 0) && newInsts == []
      modifies this`jumps, this`newInsts, this`numInserts, it, smap
      ensures Valid()
      ensures var g := GenFrom(isa, modifier, curInsts, 0);
        && err == g.err && newInsts == g.out && numInserts == old(numInserts) + |g.plan|
        && jumps == FoldRecords(isa, old(jumps), ToOutput(g.plan))
        && smap.values == old(smap.values) && smap.keys == FoldKeys(old(smap.keys), ToOutput(g.plan))
    {
      it.Reset(curInsts);
      ghost var j0, k0 := jumps, smap.keys;
      ghost var plan: seq<Insertion> := [];
      ghost var q: nat := 0;
      assert Generating(isa, modifier, curInsts, q, plan, newInsts, j0, jumps, k0, smap.keys) by {
        assert [] + GenFrom(isa, modifier, curInsts, 0).out == GenFrom(isa, modifier, curInsts, 0).out;
        assert [] + GenFrom(isa, modifier, curInsts, 0).plan == GenFrom(isa, modifier, curInsts, 0).plan;
      }
      var more := it.Next();
      while more
        invariant Valid() && it.insts == curInsts
        invariant Generating(isa, modifier, curInsts, q, plan, newInsts, j0, jumps, k0, smap.keys)
        invariant more <==> q < |curInsts| && curInsts[q] < |isa.operands|
        invariant more ==> && it.OnInstruction() && it.err == None && it.Pos() == q
                           && it.pos == NextPos(isa, curInsts, q)
        invariant !more ==> it.err == if q < |curInsts| then Some(InvalidOpcode(curInsts[q], q)) else None
        invariant numInserts == old(numInserts) + |plan| && smap.values == old(smap.values)
        decreases |curInsts| - q, more
      {
        err, plan := GenerateNext(q, plan, j0, k0);
        if err.Some? {
          return;
        }
        q := it.pos;
        more := it.Next();
      }
      GenStops(isa, modifier, curInsts, q);
      GenerateDone(isa, modifier, curInsts, q, plan, newInsts, j0, jumps, k0, smap.keys, it.err);
      err := it.Error();
    }

    /** updateJumps: rewrites the target operand of every moved record in
        the new instructions, after checking that the record's opcode is
        still at its position. */
    method UpdateJumps() returns (err: Option<Error>)
      requires forall r :: r in jumps && r.updated ==> RecordFits(isa, r, |newInsts|)
      modifies this`newInsts
      ensures var u := UpdateFrom(isa, jumps, old(newInsts));
        err == u.err && newInsts == u.buf
    {
      for i := 0 to |jumps|
        invariant |newInsts| == |old(newInsts)|
        invariant forall r :: r in jumps[i..] ==> r in jumps
        invariant UpdateFrom(isa, jumps[i..], newInsts) == UpdateFrom(isa, jumps, old(newInsts))
      {
        var v := jumps[i];
        assert jumps[i..][1..] == jumps[i + 1..];
        if v.updated {
          if newInsts[v.pos] != v.opcode {
            return Some(OpcodesMismatch(v.opcode, newInsts[v.pos]));
          }
          var operands: seq<int> := ReadOperands(isa.operands[v.opcode], newInsts[v.pos + 1..End(isa, v)]);
          operands := SetOperand(operands, v.operand, v.jump);
          match MakeInstruction(isa, v.opcode, operands)
          case Err(e) =>
            return Some(e);
          case Ok(inst) =>
            newInsts := newInsts[..v.pos] + inst + newInsts[End(isa, v)..];
        }
      }
      err := None;
    }

    /** One iteration of patch: the three passes over one function, whose
        instructions and source map are replaced only when all succeed.
        `order` is the order in which its source map's keys are read. */
    method PatchFunctionAt(fn: CompiledFunction, order: seq<int>) returns (err: Option<Error>)
      requires Valid() && WellFormed(isa, fn.instructions, 0) && Enumerates(order, fn.sourceMap)
      modifies this`jumps, this`newInsts, this`curInsts, this`numInserts, it, smap, fn
      ensures Valid()
      ensures var r := PatchFunction(isa, modifier, old(fn.instructions), old(fn.sourceMap), order);
        && err == r.err && fn.instructions == r.insts && fn.sourceMap == r.sourceMap
        && numInserts == old(numInserts) + r.inserted
    {
      curInsts := fn.instructions;
      newInsts := [];
      smap.Reset(fn.sourceMap, order);
      assert smap.values == ValuesOf(order, fn.sourceMap);
      err := SaveJumpPos();
      if err.Some? {
        return;
      }
      err := Generate();
      if err.Some? {
        return;
      }
      MovedRecordsReady(isa, modifier, curInsts);
      err := UpdateJumps();
      if err.Some? {
        return;
      }
      fn.instructions := newInsts;
      var m := smap.MakeSourceMap();
      fn.sourceMap := m;
    }

    /** The functions before `k` hold their patched contents, the others
        their old ones, and no function has failed so far. */
    ghost predicate PatchedUpTo(fs: seq<CompiledFunction>, ins: seq<FnInput>, k: nat, n0: int)
      reads this, fs
      requires isa.Valid() && Patchable(isa, ins) && k <= |ins|
    {
      var run := PatchRun(isa, modifier, ins[..k]);
      && run.err.None? && |run.results| == k && numInserts == n0 + run.inserted
      && Snapshot(fs) == Outcome(ins, run.results)
    }

    /** Before the first function is patched, every function holds its
        old contents. */
    lemma PatchedAtStart(fs: seq<CompiledFunction>, ins: seq<FnInput>)
      requires Valid() && Patchable(isa, ins) && |fs| == |ins|
      requires forall i :: 0 <= i < |fs| ==>
        fs[i].instructions == ins[i].insts && fs[i].sourceMap == ins[i].sourceMap
      ensures PatchedUpTo(fs, ins, 0, numInserts)
    {
      assert ins[..0] == [];
    }

    /** The body of patch's loop: patching function `k` of the visiting
        order. */
    method PatchStep(fn: CompiledFunction, order: seq<int>, ghost k: nat, ghost fs: seq<CompiledFunction>,
                     ghost ins: seq<FnInput>, ghost n0: int) returns (err: Option<Error>)
      requires Valid() && Patchable(isa, ins) && k < |fs| == |ins| && fs[k] == fn && order == ins[k].order
      requires forall i, j :: 0 <= i < j < |fs| ==> fs[i] != fs[j]
      requires PatchedUpTo(fs, ins, k, n0)
      modifies this`jumps, this`newInsts, this`curInsts, this`numInserts, it, smap, fn
      ensures Valid()
      ensures err.None? ==> PatchedUpTo(fs, ins, k + 1, n0)
      ensures err.Some? ==>
        var run := PatchRun(isa, modifier, ins);
        err == run.err && numInserts == n0 + run.inserted && Snapshot(fs) == Outcome(ins, run.results)
    {
      ghost var before := Snapshot(fs);
      PatchRunNext(isa, modifier, ins, k);
      err := PatchFunctionAt(fn, order);
      assert Snapshot(fs) == before[k := FnState(fn.instructions, fn.sourceMap)] by {
        forall i | 0 <= i < |fs| && i != k ensures Snapshot(fs)[i] == before[i] {
          assert fs[i] != fn;
        }
      }
      OutcomeNext(ins, PatchRun(isa, modifier, ins[..k]).results,
                  PatchFunction(isa, modifier, ins[k].insts, ins[k].sourceMap, ins[k].order));
      if err.Some? {
        PatchRunStopped(isa, modifier, ins, k + 1);
      }
    }

    /** The body of patch's loop: patch the current function, the `k`-th
        visited, then find the next compiled function among the constants
        after index `cidx`. */
    method PatchAndAdvance(cidx: int, k: nat, curFn: CompiledFunction, orders: seq<seq<int>>,
                           ghost fs: seq<CompiledFunction>, ghost ins: seq<FnInput>, ghost n0: int)
      returns (err: Option<Error>, next: int, nextFn: CompiledFunction)
      requires Valid() && Patchable(isa, ins) && |fs| == |ins| == |orders|
      requires forall i :: 0 <= i < |ins| ==> orders[i] == ins[i].order
      requires forall i, j :: 0 <= i < j < |fs| ==> fs[i] != fs[j]
      requires Visiting(bc.main, bc.constants, cidx, k, curFn) && cidx < |bc.constants|
      requires k < |fs| && fs[k] == curFn && PatchedUpTo(fs, ins, k, n0)
      modifies this`jumps, this`newInsts, this`curInsts, this`numInserts, it, smap, curFn
      ensures Valid() && cidx < next
      ensures err.None? ==>
        Visiting(bc.main, bc.constants, next, k + 1, nextFn) && PatchedUpTo(fs, ins, k + 1, n0)
      ensures err.Some? ==>
        var run := PatchRun(isa, modifier, ins);
        err == run.err && numInserts == n0 + run.inserted && Snapshot(fs) == Outcome(ins, run.results)
    {
      err := PatchStep(curFn, orders[k], k, fs, ins, n0);
      next, nextFn := cidx + 1, curFn;
      if err.Some? {
        return;
      }
      next, nextFn := NextFunction(bc.constants, cidx + 1, curFn);
      VisitingNext(bc.main, bc.constants, cidx, k, curFn, next, nextFn);
    }

    /** patch: Main, then every compiled function among the constants, in
        order, stopping at the first error. `orders` gives, per function, the
        order in which its source map's keys are read; `ins` is what the
        functions hold before the patch. */
    method Patch(orders: seq<seq<int>>, ghost ins: seq<FnInput>) returns (err: Option<Error>)
      requires Valid() && bc.Distinct() && Patchable(isa, ins)
      requires var fs := bc.Functions();
        && |fs| == |ins| == |orders|
        && forall i :: 0 <= i < |fs| ==>
             fs[i].instructions == ins[i].insts && fs[i].sourceMap == ins[i].sourceMap && orders[i] == ins[i].order
      modifies this`jumps, this`newInsts, this`curInsts, this`numInserts, it, smap, bc.FunctionSet()
      ensures Valid()
      ensures var run := PatchRun(isa, modifier, ins);
        && err == run.err && numInserts == old(numInserts) + run.inserted
        && Snapshot(bc.Functions()) == Outcome(ins, run.results)
    {
      ghost var fs := bc.Functions();
      ghost var main, cs := bc.main, bc.constants;
      var curFn := bc.main;
      var numConsts := |bc.constants|;
      var cidx := -1;
      var k := 0;
      PatchedAtStart(fs, ins);
      assert forall i, j :: 0 <= i < j < |fs| ==> fs[i] != fs[j];
      assert fs == [main] + FunctionsIn(cs);
      assert forall i :: 0 <= i < |fs| ==> fs[i] in bc.FunctionSet();
      while cidx < numConsts
        invariant Valid() && bc.main == main && bc.constants == cs
        invariant Visiting(main, cs, cidx, k, curFn)
        invariant k <= |fs| && PatchedUpTo(fs, ins, k, old(numInserts))
        decreases numConsts - cidx
      {
        VisitingFunction(main, cs, cidx, k, curFn);
        assert curFn == fs[k];
        err, cidx, curFn := PatchAndAdvance(cidx, k, curFn, orders, fs, ins, old(numInserts));
        if err.Some? {
          return;
        }
        k := k + 1;
      }
      VisitingEnd(main, cs, k, curFn);
      assert ins[..k] == ins;
      err := None;
    }
  }
}
