/** PatchForGosched (patcher/patcher.go): the policy that puts a call to the
    gosched callable at the top of every function and before every backward
    jump, and the entry point that applies it and appends the callable to the
    constant pool. */
module GoschedPolicy {
  import opened Ugo
  import opened Decoder
  import opened Relocation
  import opened Scan
  import opened Generation
  import opened PatchSpec
  import opened PatchDecode
  import opened Program
  import opened Patcher
  import Gosched

  /** The bytes inserted: CONSTANT constIndex, CALL 0 0, POP, each made by
      ugo.MakeInstruction, the first error stopping the construction. With
      the operand counts of the opcode table no error can occur. */
  function InsertBlob(isa: Isa, constIndex: int): (r: Result<seq<byte>>)
    requires isa.Valid()
    ensures r.Ok? && |r.value| == 7
  {
    match MakeInstruction(isa, isa.opConstant, [constIndex])
    case Err(e) => Err(e)
    case Ok(constant) =>
      match MakeInstruction(isa, isa.opCall, [0, 0])
      case Err(e) => Err(e)
      case Ok(call) =>
        match MakeInstruction(isa, isa.opPop, [])
        case Err(e) => Err(e)
        case Ok(pop) => Ok(constant + call + pop)
  }

  /** The inserted bytes decode as the three instructions they were made
      from, the constant index kept modulo 2^16 like the source's uint16
      operand. */
  lemma BlobDecodes(isa: Isa, constIndex: int)
    requires isa.Valid()
    ensures var blob := InsertBlob(isa, constIndex).value;
      && WellFormed(isa, blob, 0)
      && Fits(isa, blob, 0) && CursorAt(isa, blob, 0) == Cursor(0, isa.opConstant, [constIndex % 65536])
      && NextPos(isa, blob, 0) == 3
      && Fits(isa, blob, 3) && CursorAt(isa, blob, 3) == Cursor(3, isa.opCall, [0, 0])
      && NextPos(isa, blob, 3) == 6
      && Fits(isa, blob, 6) && CursorAt(isa, blob, 6) == Cursor(6, isa.opPop, [])
      && NextPos(isa, blob, 6) == 7
  {
    var blob := InsertBlob(isa, constIndex).value;
    var constant := [isa.opConstant] + EncodeOperands([2], [constIndex]);
    var call := [isa.opCall] + EncodeOperands([1, 1], [0, 0]);
    var pop := [isa.opPop] + EncodeOperands([], []);
    assert blob == constant + call + pop;
    assert blob[1..3] == EncodeOperands([2], [constIndex]) + [];
    ReadEncodeOperands([2], [constIndex], []);
    assert Pow256(2) == 65536;
    assert blob[4..6] == EncodeOperands([1, 1], [0, 0]) + [];
    ReadEncodeOperands([1, 1], [0, 0], []);
    assert blob[7..7] == [];
    assert WellFormed(isa, blob, 7);
  }

  /** The instruction at a cursor is a jump back to an earlier position. */
  predicate BackwardJump(isa: Isa, c: Cursor) {
    c.opcode == isa.opJump && |c.operands| > 0 && c.operands[0] < c.pos
  }

  /** The policy PatchForGosched hands to the patcher: insert `blob` before
      the first instruction of a function and before every backward jump,
      and let every other instruction through. */
  function Policy(isa: Isa, blob: seq<byte>): PatchFunc {
    (c: Cursor) =>
      if c.pos == 0 then (PatchInsertBefore, blob)
      else if BackwardJump(isa, c) then (PatchInsertBefore, blob)
      else (PatchNext, [])
  }

  /** The policy answers only the two actions generate knows. */
  lemma PolicyAnswers(isa: Isa, blob: seq<byte>, c: Cursor)
    ensures var (op, insert) := Policy(isa, blob)(c);
      && (op == PatchInsertBefore <==> c.pos == 0 || BackwardJump(isa, c))
      && (op == PatchInsertBefore ==> insert == blob)
      && (op == PatchNext <==> !(op == PatchInsertBefore))
  {
  }

  /** With this policy generate never fails on an action it does not know:
      it fails exactly where decoding does. */
  lemma {:induction false} PolicyGenError(isa: Isa, blob: seq<byte>, insts: seq<byte>, p: nat)
    requires WellFormed(isa, insts, p)
    ensures GenFrom(isa, Policy(isa, blob), insts, p).err == ScanError(isa, insts, p)
    decreases |insts| - p
  {
    if p < |insts| && insts[p] < |isa.operands| {
      PolicyGenError(isa, blob, insts, NextPos(isa, insts, p));
    }
  }

  /** Where the policy inserts: an insertion of the blob's size at the start
      of the function and at every backward jump, and nowhere else. */
  lemma {:induction false} PolicyPlan(isa: Isa, blob: seq<byte>, insts: seq<byte>, ins: Insertion)
    requires WellFormed(isa, insts, 0) && ScanError(isa, insts, 0).None?
    ensures ins in GenFrom(isa, Policy(isa, blob), insts, 0).plan <==>
      && IsStart(isa, insts, 0, ins.at) && Fits(isa, insts, ins.at) && ins.size == |blob|
      && (ins.at == 0 || BackwardJump(isa, CursorAt(isa, insts, ins.at)))
  {
    PolicyGenError(isa, blob, insts, 0);
    GenPlanExact(isa, Policy(isa, blob), insts, 0, ins);
  }

  /** A function that starts with a decodable instruction gets the call
      inserted at its top first, whatever follows. */
  lemma PolicyFirst(isa: Isa, blob: seq<byte>, insts: seq<byte>)
    requires WellFormed(isa, insts, 0) && 0 < |insts| && insts[0] < |isa.operands|
    ensures var plan := GenFrom(isa, Policy(isa, blob), insts, 0).plan;
      plan != [] && plan[0] == Insertion(0, |blob|)
  {
  }

  /** With this policy a function fails to patch exactly with the error
      decoding it meets. */
  lemma PolicyFunctionError(isa: Isa, blob: seq<byte>, insts: seq<byte>, sm: map<int, int>, order: seq<int>)
    requires isa.Valid() && WellFormed(isa, insts, 0) && Enumerates(order, sm)
    ensures PatchFunction(isa, Policy(isa, blob), insts, sm, order).err == ScanError(isa, insts, 0)
  {
    PatchErrors(isa, Policy(isa, blob), insts, sm, order);
    PolicyGenError(isa, blob, insts, 0);
  }

  /** The inserted bytes decode to their end without an error. */
  lemma BlobScans(isa: Isa, constIndex: int)
    requires isa.Valid()
    ensures Decodes(isa, InsertBlob(isa, constIndex).value, 0)
  {
    var blob := InsertBlob(isa, constIndex).value;
    BlobDecodes(isa, constIndex);
    assert ScanError(isa, blob, 6) == None by {
      assert ScanError(isa, blob, 7) == None;
    }
    assert ScanError(isa, blob, 0) == ScanError(isa, blob, 3) == ScanError(isa, blob, 6);
  }

  /** A function that decodes is patched without an error, and what comes
      out decodes too, the inserted calls included. */
  lemma PolicyPatchDecodes(isa: Isa, constIndex: int, insts: seq<byte>, sm: map<int, int>, order: seq<int>)
    requires isa.Valid() && WellFormed(isa, insts, 0) && Enumerates(order, sm)
    requires ScanError(isa, insts, 0).None?
    ensures var blob := InsertBlob(isa, constIndex).value;
      var r := PatchFunction(isa, Policy(isa, blob), insts, sm, order);
      && r.err.None?
      && WellFormed(isa, r.insts, 0) && ScanError(isa, r.insts, 0).None?
  {
    var blob := InsertBlob(isa, constIndex).value;
    BlobScans(isa, constIndex);
    assert BlobsDecode(isa, Policy(isa, blob)) by {
      forall c | Policy(isa, blob)(c).0 == PatchInsertBefore ensures Decodes(isa, Policy(isa, blob)(c).1, 0) {
        PolicyAnswers(isa, blob, c);
      }
    }
    PolicyFunctionError(isa, blob, insts, sm, order);
    PatchDecodes(isa, Policy(isa, blob), insts, sm, order);
  }

  /** In a patched function the call sequence stands right before the
      relocated first instruction and right before every relocated backward
      jump. */
  lemma PolicyPatchCalls(isa: Isa, constIndex: int, insts: seq<byte>, sm: map<int, int>, order: seq<int>, s: nat)
    requires isa.Valid() && WellFormed(isa, insts, 0) && Enumerates(order, sm)
    requires ScanError(isa, insts, 0).None?
    requires IsStart(isa, insts, 0, s) && Fits(isa, insts, s)
    requires s == 0 || BackwardJump(isa, CursorAt(isa, insts, s))
    ensures var blob := InsertBlob(isa, constIndex).value;
      var f := Policy(isa, blob);
      var r, e := PatchFunction(isa, f, insts, sm, order), Relocated(s, GenFrom(isa, f, insts, 0).plan);
      && r.err.None?
      && 7 <= e <= |r.insts| && r.insts[e - 7..e] == blob
  {
    var blob := InsertBlob(isa, constIndex).value;
    var f := Policy(isa, blob);
    PolicyFunctionError(isa, blob, insts, sm, order);
    PolicyPlan(isa, blob, insts, Insertion(s, |blob|));
    PatchBlobs(isa, f, insts, sm, order, Insertion(s, |blob|));
  }

  /** A whole patch with this policy fails only on an opcode missing from
      the table, and it fails exactly when some function does not decode. */
  lemma {:induction false} PolicyRunErrors(isa: Isa, blob: seq<byte>, ins: seq<FnInput>)
    requires isa.Valid() && Patchable(isa, ins)
    ensures var run := PatchRun(isa, Policy(isa, blob), ins);
      && (run.err.Some? ==> run.err.value.InvalidOpcode?)
      && (run.err.None? <==> forall i :: 0 <= i < |ins| ==> ScanError(isa, ins[i].insts, 0).None?)
  {
    var f := Policy(isa, blob);
    var run := PatchRun(isa, f, ins);
    PatchRunResults(isa, f, ins);
    if run.err.Some? {
      var k := |run.results| - 1;
      assert run.err == ScanError(isa, ins[k].insts, 0) by {
        PolicyFunctionError(isa, blob, ins[k].insts, ins[k].sourceMap, ins[k].order);
      }
      ScanErrorIsInvalidOpcode(isa, ins[k].insts, 0);
    } else {
      forall i | 0 <= i < |ins| ensures ScanError(isa, ins[i].insts, 0).None? {
        PolicyFunctionError(isa, blob, ins[i].insts, ins[i].sourceMap, ins[i].order);
      }
    }
  }

  /** newBytecodePatcher with the policy, then patch. */
  method ApplyPolicy(isa: Isa, bc: Bytecode, blob: seq<byte>, orders: seq<seq<int>>, ghost ins: seq<FnInput>)
    returns (numInserts: nat, err: Option<Error>)
    requires isa.Valid() && bc.Distinct() && Patchable(isa, ins)
    requires var fs := bc.Functions();
      && |fs| == |ins| == |orders|
      && forall i :: 0 <= i < |fs| ==>
           fs[i].instructions == ins[i].insts && fs[i].sourceMap == ins[i].sourceMap && orders[i] == ins[i].order
    modifies bc.FunctionSet()
    ensures var run := PatchRun(isa, Policy(isa, blob), ins);
      && err == run.err && numInserts == run.inserted
      && Snapshot(bc.Functions()) == Outcome(ins, run.results)
  {
    ghost var fs := bc.Functions();
    FunctionsInAllocated(bc.constants);
    assert forall i :: 0 <= i < |fs| ==> allocated(fs[i]);
    var opWidths := GetOpWidths(isa.operands);
    var bp := new BytecodePatcher(isa, opWidths, bc, Policy(isa, blob));
    assert bp.bc.Functions() == fs;
    assert forall i :: 0 <= i < |fs| ==>
      fs[i].instructions == ins[i].insts && fs[i].sourceMap == ins[i].sourceMap && orders[i] == ins[i].order;
    err := bp.Patch(orders, ins);
    numInserts := bp.numInserts;
  }

  /** PatchForGosched: patches every function of `bc` with the policy above
      and, when no function failed, appends a new gosched callable to the
      constants. The count of insertions is returned in both cases.
      `numCPU` and `maxProcs` stand for runtime.NumCPU() and
      runtime.GOMAXPROCS(0); `orders` for the order in which each function's
      source map is read; `ins` is what the functions hold before. */
  method PatchForGosched(isa: Isa, bc: Bytecode, callThreshold: nat, numCPU: int, maxProcs: int,
                         orders: seq<seq<int>>, ghost ins: seq<FnInput>)
    returns (numInserts: nat, err: Option<Error>)
    requires isa.Valid() && 0 < callThreshold < Gosched.Uint32Range
    requires bc.Distinct() && Patchable(isa, ins)
    requires var fs := bc.Functions();
      && |fs| == |ins| == |orders|
      && forall i :: 0 <= i < |fs| ==>
           fs[i].instructions == ins[i].insts && fs[i].sourceMap == ins[i].sourceMap && orders[i] == ins[i].order
    modifies bc, bc.FunctionSet()
    ensures var run := PatchRun(isa, Policy(isa, InsertBlob(isa, old(|bc.constants|)).value), ins);
      && err == run.err && numInserts == run.inserted
      && Snapshot(old(bc.Functions())) == Outcome(ins, run.results)
    ensures bc.main == old(bc.main)
    ensures err.Some? ==> bc.constants == old(bc.constants)
    ensures err.None? ==>
      && |bc.constants| == old(|bc.constants|) + 1 && bc.constants[..old(|bc.constants|)] == old(bc.constants)
      && var last := bc.constants[old(|bc.constants|)];
      && last.GoschedObject? && fresh(last.g) && last.g.Valid()
      && last.g.callThreshold == callThreshold && last.g.sleep == (numCPU == 1 || maxProcs == 1)
      && last.g.numCalls == 0 && last.g.counter == 0
  {
    ghost var fs := bc.Functions();
    FunctionsInAllocated(bc.constants);
    assert forall i :: 0 <= i < |fs| ==> allocated(fs[i]);
    var blob := InsertBlob(isa, |bc.constants|).value;
    numInserts, err := ApplyPolicy(isa, bc, blob, orders, ins);
    if err.Some? {
      return;
    }
    ghost var after := Snapshot(fs);
    var fn := new Gosched.GoschedFunc(callThreshold, numCPU == 1 || maxProcs == 1);
    bc.constants := bc.constants + [GoschedObject(fn)];
    assert Snapshot(fs) == after by {
      forall i | 0 <= i < |fs| ensures Snapshot(fs)[i] == after[i] {
      }
    }
  }
}
