/** The Gosched patches recorded in patcher/patcher_test.go, replayed on the
    model with an opcode table that gives every opcode of those programs its
    operand widths. */
module Scenarios {
  import opened Ugo
  import opened Decoder
  import opened Relocation
  import opened Scan
  import opened Generation
  import opened PatchSpec
  import opened GoschedPolicy
  import opened Update

  const CONSTANT: byte := 0
  const CALL: byte := 1
  const POP: byte := 2
  const JUMP: byte := 3
  const JUMPFALSY: byte := 4
  const ANDJUMP: byte := 5
  const ORJUMP: byte := 6
  const SETUPTRY: byte := 7
  const RETURN: byte := 8
  const DEFINELOCAL: byte := 9
  const GETLOCAL: byte := 10
  const THROW: byte := 11
  const NULL: byte := 12
  const SETUPCATCH: byte := 13
  const SETLOCAL: byte := 14
  const BINARYOP: byte := 15
  const SETUPFINALLY: byte := 16

  /** The operand widths of the opcodes above. */
  const TestOperands: seq<seq<nat>> :=
    [[2], [1, 1], [], [4], [4], [4], [4], [4, 4], [1], [1], [1], [1], [], [], [1], [1], []]

  function TestIsa(): (isa: Isa)
    ensures isa.Valid()
  {
    Isa(TestOperands, CONSTANT, CALL, POP, JUMP, JUMPFALSY, ANDJUMP, ORJUMP, SETUPTRY)
  }

  /** The number of operand bytes of each opcode. */
  lemma TestWidths()
    ensures var isa := TestIsa();
      && isa.Width(CONSTANT) == 2 && isa.Width(CALL) == 2 && isa.Width(POP) == 0
      && isa.Width(JUMP) == 4 && isa.Width(JUMPFALSY) == 4 && isa.Width(SETUPTRY) == 8
      && isa.Width(RETURN) == 1 && isa.Width(DEFINELOCAL) == 1 && isa.Width(GETLOCAL) == 1
      && isa.Width(THROW) == 1 && isa.Width(NULL) == 0 && isa.Width(SETUPCATCH) == 0
      && isa.Width(SETLOCAL) == 1 && isa.Width(BINARYOP) == 1 && isa.Width(SETUPFINALLY) == 0
  {
    assert Sum([]) == 0;
    SumOne(1);
    SumOne(2);
    SumOne(4);
    assert Sum([4, 4]) == 8 by {
      assert [4, 4][..1] == [4];
    }
  }

  lemma SumOne(w: nat)
    ensures Sum([w]) == w
  {
    assert [w][..0] == [];
  }

  /** The bytes the policy inserts when the gosched callable gets constant
      index `k`: CONSTANT k, CALL 0 0, POP. */
  lemma TestBlob(k: nat)
    requires k < 256
    ensures InsertBlob(TestIsa(), k).value == [CONSTANT, 0, k as byte, CALL, 0, 0, POP]
  {
    var isa := TestIsa();
    assert EncodeOperand(k, 2) == [0, k as byte];
  }

  /** An empty program: its main function is a lone RETURN 0 whose source
      map has the key 0. The call is inserted at the top, and the key moves
      to 7. */
  lemma EmptyProgram()
    ensures var isa := TestIsa();
      var insts: seq<byte> := [RETURN, 0];
      var f := Policy(isa, InsertBlob(isa, 0).value);
      && WellFormed(isa, insts, 0) && Enumerates([0], map[0 := 0])
      && var r := PatchFunction(isa, f, insts, map[0 := 0], [0]);
      && r.err.None? && r.inserted == 1
      && r.insts == [CONSTANT, 0, 0, CALL, 0, 0, POP, RETURN, 0]
      && r.sourceMap.Keys == {7} && r.sourceMap[7] == 0
  {
    EmptyGen();
    EmptyKeys();
  }

  /** generate on the empty program: the call goes in at the top; the scan
      finds no jump. */
  lemma EmptyGen()
    ensures var isa := TestIsa();
      var insts: seq<byte> := [RETURN, 0];
      var f := Policy(isa, InsertBlob(isa, 0).value);
      && WellFormed(isa, insts, 0) && ScanError(isa, insts, 0) == None
      && GenFrom(isa, f, insts, 0) == GenOut([CONSTANT, 0, 0, CALL, 0, 0, POP, RETURN, 0], [Insertion(0, 7)], None)
      && MovedRecords(isa, f, insts) == []
  {
    var isa := TestIsa();
    var insts: seq<byte> := [RETURN, 0];
    var blob := InsertBlob(isa, 0).value;
    TestBlob(0);
    TestWidths();
    assert NextPos(isa, insts, 0) == 2;
    TopThenRun(isa, blob, insts);
    assert RecordsFrom(isa, insts, 2) == [];
    assert RecordsFrom(isa, insts, 0) == [];
  }

  /** The one source-map key of the empty program moves past the call. */
  lemma EmptyKeys()
    ensures Zip(FoldKeys([0], ToOutput([Insertion(0, 7)])), ValuesOf([0], map[0 := 0])) == map[7 := 0]
  {
    EmptyFold();
    assert ValuesOf([0], map[0 := 0]) == [0];
    assert Zip([7], [0]) == map[7 := 0];
  }

  /** The key 0 lands at 7. */
  lemma EmptyFold()
    ensures FoldKeys([0], ToOutput([Insertion(0, 7)])) == [7]
  {
    var outs := [Insertion(0, 7)];
    assert outs[..0] == [];
    assert ToOutput(outs) == outs;
    assert FoldPos(0, outs) == 7;
  }

  /** Decoding from `p` lands exactly on `q`, over opcodes of the table none
      of which is JUMP; when `plain`, none of them has a jump target at all. */
  predicate Run(isa: Isa, insts: seq<byte>, p: nat, q: nat, plain: bool)
    decreases q - p
  {
    || p == q
    || (&& p < q && p < |insts| && insts[p] < |isa.operands| && insts[p] != isa.opJump
        && (plain ==> !isa.IsSingleJump(insts[p]) && insts[p] != isa.opSetupTry)
        && Run(isa, insts, NextPos(isa, insts, p), q, plain))
  }

  /** A run decodes, and a plain run adds no record. */
  lemma {:induction false} RunScan(isa: Isa, insts: seq<byte>, p: nat, q: nat, plain: bool)
    requires isa.Valid() && Run(isa, insts, p, q, plain) && q <= |insts| && WellFormed(isa, insts, q)
    ensures WellFormed(isa, insts, p) && ScanError(isa, insts, p) == ScanError(isa, insts, q)
    ensures plain ==> RecordsFrom(isa, insts, p) == RecordsFrom(isa, insts, q)
    decreases q - p
  {
    if p != q {
      RunScan(isa, insts, NextPos(isa, insts, p), q, plain);
    }
  }

  /** A plain run is a run. */
  lemma {:induction false} RunWeaker(isa: Isa, insts: seq<byte>, p: nat, q: nat)
    requires Run(isa, insts, p, q, true)
    ensures Run(isa, insts, p, q, false)
    decreases q - p
  {
    if p != q {
      RunWeaker(isa, insts, NextPos(isa, insts, p), q);
    }
  }

  /** Past the top of a function, the policy lets a run through. */
  lemma {:induction false} RunGen(isa: Isa, blob: seq<byte>, insts: seq<byte>, p: nat, q: nat)
    requires isa.Valid() && Run(isa, insts, p, q, false) && q <= |insts| && WellFormed(isa, insts, q) && 0 < p
    ensures WellFormed(isa, insts, p)
    ensures var g, h := GenFrom(isa, Policy(isa, blob), insts, p), GenFrom(isa, Policy(isa, blob), insts, q);
      g == GenOut(insts[p..q] + h.out, h.plan, h.err)
    decreases q - p
  {
    RunScan(isa, insts, p, q, false);
    if p != q {
      var next := NextPos(isa, insts, p);
      RunGen(isa, blob, insts, next, q);
      PassStep(isa, blob, insts, p);
      var h := GenFrom(isa, Policy(isa, blob), insts, q);
      assert insts[p..q] + h.out == insts[p..next] + (insts[next..q] + h.out) by {
        assert insts[p..q] == insts[p..next] + insts[next..q];
      }
    }
  }

  /** The policy lets an instruction other than JUMP through, past the top. */
  lemma PassStep(isa: Isa, blob: seq<byte>, insts: seq<byte>, p: nat)
    requires 0 < p < |insts| && insts[p] < |isa.operands| && insts[p] != isa.opJump
    requires WellFormed(isa, insts, p)
    ensures var next := NextPos(isa, insts, p);
      && next <= |insts| && WellFormed(isa, insts, next)
      && var f := Policy(isa, blob);
      var rest := GenFrom(isa, f, insts, next);
      GenFrom(isa, f, insts, p) == GenOut(insts[p..next] + rest.out, rest.plan, rest.err)
  {
    assert Policy(isa, blob)(CursorAt(isa, insts, p)) == (PatchNext, []);
  }

  /** A function whose first instruction is followed by a run to its end
      gets the policy's bytes at the top and nowhere else. */
  lemma TopThenRun(isa: Isa, blob: seq<byte>, insts: seq<byte>)
    requires isa.Valid() && 0 < |insts| && insts[0] < |isa.operands|
    requires Run(isa, insts, NextPos(isa, insts, 0), |insts|, false)
    ensures WellFormed(isa, insts, 0) && ScanError(isa, insts, 0) == None
    ensures GenFrom(isa, Policy(isa, blob), insts, 0) == GenOut(blob + insts, [Insertion(0, |blob|)], None)
  {
    var next := NextPos(isa, insts, 0);
    RunGen(isa, blob, insts, next, |insts|);
    RunScan(isa, insts, next, |insts|, false);
    assert Policy(isa, blob)(CursorAt(isa, insts, 0)) == (PatchInsertBefore, blob);
    assert blob + insts[0..next] + (insts[next..|insts|] + []) == blob + insts by {
      assert insts == insts[0..next] + insts[next..|insts|];
    }
  }

  /** try { throw a } finally { return }, as compiled. */
  const TryFinallyCode: seq<byte> := [
    CONSTANT, 0, 0, DEFINELOCAL, 0, SETUPTRY, 0, 0, 0, 0, 0, 0, 0, 18,
    GETLOCAL, 0, THROW, 1, SETUPFINALLY, RETURN, 0, THROW, 0, RETURN, 0]

  /** Its policy, with the gosched callable at constant index 1. */
  function TryFinallyPolicy(): PatchFunc {
    Policy(TestIsa(), InsertBlob(TestIsa(), 1).value)
  }

  /** What the proofs below use of that code: a first instruction of three
      bytes, then a run; a plain run up to the SETUPTRY at 5, its operands
      0 and 18, and a plain run after it. */
  predicate TryFinallyShape(insts: seq<byte>) {
    && |insts| == 25 && insts[0] == CONSTANT && insts[5] == SETUPTRY
    && insts[6..14] == [0, 0, 0, 0, 0, 0, 0, 18]
    && Run(TestIsa(), insts, 3, 25, false)
    && Run(TestIsa(), insts, 0, 5, true) && Run(TestIsa(), insts, 14, 25, true)
  }

  lemma TryFinallyShaped()
    ensures TryFinallyShape(TryFinallyCode)
  {
    var isa, insts := TestIsa(), TryFinallyCode;
    TestWidths();
    TryFinallyTail(insts);
    RunWeaker(isa, insts, 14, 25);
    assert Run(isa, insts, 5, 25, false);
    assert Run(isa, insts, 3, 25, false);
    assert Run(isa, insts, 3, 5, true);
  }

  /** After the SETUPTRY: GETLOCAL, THROW, SETUPFINALLY, RETURN, THROW,
      RETURN. */
  lemma TryFinallyTail(insts: seq<byte>)
    requires insts == TryFinallyCode
    ensures Run(TestIsa(), insts, 14, 25, true)
  {
    var isa := TestIsa();
    TestWidths();
    assert Run(isa, insts, 23, 25, true);
    assert Run(isa, insts, 21, 25, true);
    assert Run(isa, insts, 19, 25, true);
    assert Run(isa, insts, 18, 25, true);
    assert Run(isa, insts, 16, 25, true);
  }

  /** Only the top of the function gets the call. */
  lemma TryFinallyGen(insts: seq<byte>)
    requires TryFinallyShape(insts)
    ensures WellFormed(TestIsa(), insts, 0) && ScanError(TestIsa(), insts, 0) == None
    ensures GenFrom(TestIsa(), TryFinallyPolicy(), insts, 0)
      == GenOut(InsertBlob(TestIsa(), 1).value + insts, [Insertion(0, 7)], None)
  {
    TestBlob(1);
    TopThenRun(TestIsa(), InsertBlob(TestIsa(), 1).value, insts);
  }

  /** The scan records the two targets of SETUPTRY. */
  lemma TryFinallyRecords(insts: seq<byte>)
    requires TryFinallyShape(insts)
    ensures WellFormed(TestIsa(), insts, 0)
    ensures RecordsFrom(TestIsa(), insts, 0) == [PosJump(5, 0, SETUPTRY, 0, false), PosJump(5, 18, SETUPTRY, 1, false)]
  {
    var isa := TestIsa();
    RunScan(isa, insts, 14, 25, true);
    TryAt(insts, 5, 0, 18);
    RunScan(isa, insts, 0, 5, true);
  }

  /** A record after a single insertion. */
  lemma FoldOne(isa: Isa, r: PosJump, ins: Insertion)
    ensures FoldRecord(isa, r, [ins]) == r.InsertAt(isa, ins)
  {
    assert [ins][..0] == [];
  }

  /** The insertion at the top moves the SETUPTRY; its "no handler" target
      stays 0 and the finally target moves with the code. */
  lemma TryFinallyMoved(insts: seq<byte>)
    requires TryFinallyShape(insts)
    ensures WellFormed(TestIsa(), insts, 0)
    ensures MovedRecords(TestIsa(), TryFinallyPolicy(), insts)
      == [PosJump(12, 0, SETUPTRY, 0, true), PosJump(12, 25, SETUPTRY, 1, true)]
  {
    var isa := TestIsa();
    TryFinallyGen(insts);
    TryFinallyRecords(insts);
    var ins := Insertion(0, 7);
    assert ToOutput([ins]) == [ins] by {
      assert [ins][..0] == [];
    }
    FoldOne(isa, PosJump(5, 0, SETUPTRY, 0, false), ins);
    FoldOne(isa, PosJump(5, 18, SETUPTRY, 1, false), ins);
  }

  /** A SETUPTRY whose two targets are below 256. */
  function TryBytes(catchPos: byte, finallyPos: byte): seq<byte> {
    [SETUPTRY, 0, 0, 0, catchPos, 0, 0, 0, finallyPos]
  }

  /** A four-byte operand below 256. */
  lemma Encode4(v: byte)
    ensures EncodeOperand(v as int, 4) == [0, 0, 0, v]
  {
    assert EncodeOperand(0, 3) == [0, 0, 0];
  }

  /** The operands updateJumps reads from such a SETUPTRY. */
  lemma TryOperands(buf: seq<byte>, r: PosJump, catchPos: byte, finallyPos: byte)
    requires r.opcode == SETUPTRY && r.operand < 2 && 0 <= r.pos && r.pos + 9 <= |buf|
    requires buf[r.pos..r.pos + 9] == TryBytes(catchPos, finallyPos)
    ensures RecordFits(TestIsa(), r, |buf|)
    ensures OperandsIn(TestIsa(), buf, r) == [catchPos as int, finallyPos as int]
  {
    assert Sum([4, 4]) == 8 by {
      assert [4, 4][..1] == [4] && [4][..0] == [];
    }
    var ins := buf[r.pos + 1..r.pos + 9];
    assert ins == TryBytes(catchPos, finallyPos)[1..];
    ReadTry(ins);
    Decode4(ins[..4]);
    Decode4(ins[4..]);
  }

  /** MakeInstruction for SETUPTRY with two targets below 256. */
  lemma TryEncode(catchPos: byte, finallyPos: byte)
    ensures var r := MakeInstruction(TestIsa(), SETUPTRY, [catchPos as int, finallyPos as int]);
      r.Ok? && r.value == TryBytes(catchPos, finallyPos)
  {
    var ops := [catchPos as int, finallyPos as int];
    assert TestIsa().operands[SETUPTRY] == [4, 4];
    Encode4(catchPos);
    Encode4(finallyPos);
    assert EncodeOperands([4, 4], ops) == EncodeOperand(ops[0], 4) + EncodeOperand(ops[1], 4) by {
      assert [4, 4][..1] == [4] && [4][..0] == [];
      assert ops[..1] == [ops[0]] && [ops[0]][..0] == [];
      assert [SETUPTRY] + EncodeOperands([4, 4], ops) == TryBytes(catchPos, finallyPos);
  }
  }

  /** updateJumps rewrites one target of such a SETUPTRY in place. */
  lemma UpdateTry(buf: seq<byte>, p: nat, catchPos: byte, finallyPos: byte, slot: nat, v: byte)
    requires slot < 2 && p + 9 <= |buf| && buf[p..p + 9] == TryBytes(catchPos, finallyPos)
    ensures var r := PosJump(p, v as int, SETUPTRY, slot, true);
      && RecordFits(TestIsa(), r, |buf|)
      && UpdateOne(TestIsa(), r, buf)
         == Updated(buf[..p] + (if slot == 0 then TryBytes(v, finallyPos) else TryBytes(catchPos, v)) + buf[p + 9..], None)
  {
    var r := PosJump(p, v as int, SETUPTRY, slot, true);
    TryOperands(buf, r, catchPos, finallyPos);
    assert buf[p] == SETUPTRY;
    if slot == 0 {
      assert SetOperand([catchPos as int, finallyPos as int], slot, v as int) == [v as int, finallyPos as int];
      TryEncode(v, finallyPos);
    } else {
      assert SetOperand([catchPos as int, finallyPos as int], slot, v as int) == [catchPos as int, v as int];
      TryEncode(catchPos, v);
    }
  }

  /** updateJumps rewrites the SETUPTRY at 12 with targets 0 and 25. */
  lemma TryFinallyFinal(insts: seq<byte>)
    requires TryFinallyShape(insts)
    ensures WellFormed(TestIsa(), insts, 0) && Generated(TestIsa(), TryFinallyPolicy(), insts)
    ensures var isa, f := TestIsa(), TryFinallyPolicy();
      var recs, out := MovedRecords(isa, f, insts), GenFrom(isa, f, insts, 0).out;
      && (forall r :: r in recs && r.updated ==> RecordFits(isa, r, |out|))
      && var u := UpdateFrom(isa, recs, out);
      && u.err == None
      && u.buf == InsertBlob(isa, 1).value + insts[..5] + TryBytes(0, 25) + insts[14..]
  {
    var isa, f := TestIsa(), TryFinallyPolicy();
    var blob := InsertBlob(isa, 1).value;
    TryFinallyGen(insts);
    TryFinallyMoved(insts);
    TestBlob(1);
    var buf := blob + insts;
    TryFinallyWindow(blob, insts);
    TryUpdates(buf, 12, 25);
    SpliceAfter(blob, insts, 5, TryBytes(0, 25));
  }

  /** The SETUPTRY of the try/finally test, after the inserted call. */
  lemma TryFinallyWindow(blob: seq<byte>, insts: seq<byte>)
    requires |blob| == 7 && |insts| == 25 && insts[5] == SETUPTRY
    requires insts[6..14] == [0, 0, 0, 0, 0, 0, 0, 18]
    ensures (blob + insts)[12..21] == TryBytes(0, 18)
  {
    SliceAfter(blob, insts, 5, 9);
    assert insts[5..14] == [SETUPTRY] + insts[6..14];
  }

  /** updateJumps over the two records of a SETUPTRY without a catch block:
      the first rewrites the 0 it read, the second the finally target. */
  lemma TryUpdates(buf: seq<byte>, p: nat, finallyPos: byte)
    requires p + 9 <= |buf| && buf[p..p + 9] == TryBytes(0, 18)
    ensures var rs := [PosJump(p, 0, SETUPTRY, 0, true), PosJump(p, finallyPos as int, SETUPTRY, 1, true)];
      && (forall r :: r in rs ==> RecordFits(TestIsa(), r, |buf|))
      && UpdateFrom(TestIsa(), rs, buf) == Updated(buf[..p] + TryBytes(0, finallyPos) + buf[p + 9..], None)
  {
    var r1, r2 := PosJump(p, 0, SETUPTRY, 0, true), PosJump(p, finallyPos as int, SETUPTRY, 1, true);
    UpdateTry(buf, p, 0, 18, 0, 0);
    var buf1 := buf[..p] + TryBytes(0, 18) + buf[p + 9..];
    Splice(buf, p, TryBytes(0, 18), TryBytes(0, finallyPos));
    UpdateTry(buf1, p, 0, 18, 1, finallyPos);
    UpdateTwo(TestIsa(), r1, r2, buf, buf1, buf[..p] + TryBytes(0, finallyPos) + buf[p + 9..]);
  }

  /** updateJumps over two moved records that both succeed. */
  lemma UpdateTwo(isa: Isa, r1: PosJump, r2: PosJump, buf: seq<byte>, buf1: seq<byte>, buf2: seq<byte>)
    requires r1.updated && r2.updated && RecordFits(isa, r1, |buf|) && RecordFits(isa, r2, |buf|)
    requires UpdateOne(isa, r1, buf) == Updated(buf1, None) && UpdateOne(isa, r2, buf1) == Updated(buf2, None)
    ensures UpdateFrom(isa, [r1, r2], buf) == Updated(buf2, None)
  {
    assert UpdateFrom(isa, [r2], buf1) == Updated(buf2, None) by {
      assert [r2][1..] == [];
    }
    assert [r1, r2][1..] == [r2];
  }

  /** The patch of a function of that shape, for any source map. */
  lemma TryFinallyPatch(insts: seq<byte>, sm: map<int, int>, order: seq<int>)
    requires TryFinallyShape(insts) && Enumerates(order, sm)
    ensures var isa := TestIsa();
      && WellFormed(isa, insts, 0)
      && var r := PatchFunction(isa, TryFinallyPolicy(), insts, sm, order);
      && r.err.None? && r.inserted == 1
      && r.insts == InsertBlob(isa, 1).value + insts[..5] + TryBytes(0, 25) + insts[14..]
      && GenFrom(isa, TryFinallyPolicy(), insts, 0).plan == [Insertion(0, 7)]
  {
    TryFinallyGen(insts);
    TryFinallyFinal(insts);
  }

  /** Its source map: every key moves past the seven inserted bytes. */
  lemma TryFinallyKeys(insts: seq<byte>, sm: map<int, int>, order: seq<int>)
    requires TryFinallyShape(insts) && Enumerates(order, sm) && forall k :: k in sm ==> 0 <= k
    ensures var isa := TestIsa();
      && WellFormed(isa, insts, 0)
      && var m := PatchFunction(isa, TryFinallyPolicy(), insts, sm, order).sourceMap;
      && (forall k :: k in m <==> k - 7 in sm)
      && (forall k :: k in m ==> m[k] == sm[k - 7])
  {
    TryFinallyPatch(insts, sm, order);
    TopSourceMap(TestIsa(), TryFinallyPolicy(), insts, sm, order);
  }

  /** The source map of a patch that inserts seven bytes at the top only. */
  lemma TopSourceMap(isa: Isa, f: PatchFunc, insts: seq<byte>, sm: map<int, int>, order: seq<int>)
    requires isa.Valid() && WellFormed(isa, insts, 0) && Enumerates(order, sm)
    requires PatchFunction(isa, f, insts, sm, order).err.None?
    requires GenFrom(isa, f, insts, 0).plan == [Insertion(0, 7)] && forall k :: k in sm ==> 0 <= k
    ensures var m := PatchFunction(isa, f, insts, sm, order).sourceMap;
      && (forall k :: k in m <==> k - 7 in sm)
      && (forall k :: k in m ==> m[k] == sm[k - 7])
  {
    var m := PatchFunction(isa, f, insts, sm, order).sourceMap;
    forall k ensures (k in m <==> k - 7 in sm) && (k in m ==> m[k] == sm[k - 7]) {
      if k - 7 in sm {
        KeyMoved(isa, f, insts, sm, order, k - 7);
        TopKeys(k - 7);
      }
      if k in m {
        var j := KeyOrigin(isa, f, insts, sm, order, k);
        TopKeys(j);
        KeyMoved(isa, f, insts, sm, order, j);
      }
    }
  }

  /** One key of the old source map, relocated in the new one. */
  lemma KeyMoved(isa: Isa, f: PatchFunc, insts: seq<byte>, sm: map<int, int>, order: seq<int>, k: int)
    requires isa.Valid() && WellFormed(isa, insts, 0) && Enumerates(order, sm)
    requires PatchFunction(isa, f, insts, sm, order).err.None? && k in sm
    ensures var m, plan := PatchFunction(isa, f, insts, sm, order).sourceMap, GenFrom(isa, f, insts, 0).plan;
      Relocated(k, plan) in m && m[Relocated(k, plan)] == sm[k]
  {
    PatchSourceMap(isa, f, insts, sm, order);
  }

  /** One key of the new source map, and the old key it comes from. */
  lemma KeyOrigin(isa: Isa, f: PatchFunc, insts: seq<byte>, sm: map<int, int>, order: seq<int>, k: int) returns (j: int)
    requires isa.Valid() && WellFormed(isa, insts, 0) && Enumerates(order, sm)
    requires PatchFunction(isa, f, insts, sm, order).err.None?
    requires k in PatchFunction(isa, f, insts, sm, order).sourceMap
    ensures j in sm && k == Relocated(j, GenFrom(isa, f, insts, 0).plan)
  {
    PatchSourceMap(isa, f, insts, sm, order);
    j :| j in sm && k == Relocated(j, GenFrom(isa, f, insts, 0).plan);
  }

  /** The bytes of that patch, written out. */
  lemma TryFinallyBytes()
    ensures InsertBlob(TestIsa(), 1).value + TryFinallyCode[..5] + TryBytes(0, 25) + TryFinallyCode[14..]
      == [CONSTANT, 0, 1, CALL, 0, 0, POP,
          CONSTANT, 0, 0, DEFINELOCAL, 0, SETUPTRY, 0, 0, 0, 0, 0, 0, 0, 25,
          GETLOCAL, 0, THROW, 1, SETUPFINALLY, RETURN, 0, THROW, 0, RETURN, 0]
  {
    TestBlob(1);
    TryFinallyEnds();
    TryFinallyJoin(InsertBlob(TestIsa(), 1).value, TryFinallyCode[..5], TryFinallyCode[14..]);
  }

  /** The bytes around the SETUPTRY of the try/finally test. */
  lemma TryFinallyEnds()
    ensures TryFinallyCode[..5] == [CONSTANT, 0, 0, DEFINELOCAL, 0]
    ensures TryFinallyCode[14..] == [GETLOCAL, 0, THROW, 1, SETUPFINALLY, RETURN, 0, THROW, 0, RETURN, 0]
  {
  }

  /** The pieces of the patched try/finally function, joined. */
  lemma TryFinallyJoin(blob: seq<byte>, a: seq<byte>, c: seq<byte>)
    requires blob == [CONSTANT, 0, 1, CALL, 0, 0, POP] && a == [CONSTANT, 0, 0, DEFINELOCAL, 0]
    requires c == [GETLOCAL, 0, THROW, 1, SETUPFINALLY, RETURN, 0, THROW, 0, RETURN, 0]
    ensures blob + a + TryBytes(0, 25) + c
      == [CONSTANT, 0, 1, CALL, 0, 0, POP,
          CONSTANT, 0, 0, DEFINELOCAL, 0, SETUPTRY, 0, 0, 0, 0, 0, 0, 0, 25,
          GETLOCAL, 0, THROW, 1, SETUPFINALLY, RETURN, 0, THROW, 0, RETURN, 0]
  {
  }

  /** The expected output of the try/finally test: the call at the top,
      then the function with the finally target moved from 18 to 25 and
      the "no handler" target left at 0; every source-map key moves by 7. */
  lemma TryFinally(sm: map<int, int>, order: seq<int>)
    requires Enumerates(order, sm) && forall k :: k in sm ==> 0 <= k
    ensures var isa, insts := TestIsa(), TryFinallyCode;
      && WellFormed(isa, insts, 0)
      && var r := PatchFunction(isa, TryFinallyPolicy(), insts, sm, order);
      && r.err.None? && r.inserted == 1
      && r.insts == [
           CONSTANT, 0, 1, CALL, 0, 0, POP,
           CONSTANT, 0, 0, DEFINELOCAL, 0, SETUPTRY, 0, 0, 0, 0, 0, 0, 0, 25,
           GETLOCAL, 0, THROW, 1, SETUPFINALLY, RETURN, 0, THROW, 0, RETURN, 0]
      && (forall k :: k in r.sourceMap <==> k - 7 in sm)
      && (forall k :: k in r.sourceMap ==> r.sourceMap[k] == sm[k - 7])
  {
    TryFinallyShaped();
    TryFinallyPatch(TryFinallyCode, sm, order);
    TryFinallyKeys(TryFinallyCode, sm, order);
    TryFinallyBytes();
  }

  /** A window of bytes after a prefix is a window of what follows it. */
  lemma SliceAfter(pre: seq<byte>, s: seq<byte>, p: nat, n: nat)
    requires p + n <= |s|
    ensures (pre + s)[|pre| + p..|pre| + p + n] == s[p..p + n]
  {
  }

  /** Splicing a window in and then another over it is splicing the second. */
  lemma Splice(x: seq<byte>, p: nat, w: seq<byte>, w2: seq<byte>)
    requires p + |w| <= |x| && |w2| == |w|
    ensures var y := x[..p] + w + x[p + |w|..];
      && |y| == |x| && y[p..p + |w|] == w
      && y[..p] + w2 + y[p + |w|..] == x[..p] + w2 + x[p + |w|..]
  {
    var y := x[..p] + w + x[p + |w|..];
    assert y[..p] == x[..p];
    assert y[p + |w|..] == x[p + |w|..];
  }

  /** Splicing a window into the bytes after a prefix. */
  lemma SpliceAfter(pre: seq<byte>, s: seq<byte>, p: nat, w: seq<byte>)
    requires p + |w| <= |s|
    ensures var x := pre + s;
      x[..|pre| + p] + w + x[|pre| + p + |w|..] == pre + s[..p] + w + s[p + |w|..]
  {
    var x := pre + s;
    assert x[..|pre| + p] == pre + s[..p];
    assert x[|pre| + p + |w|..] == s[p + |w|..];
  }

  /** Nonnegative source-map keys move past the seven inserted bytes. */
  lemma TopKeys(k: int)
    requires 0 <= k
    ensures Relocated(k, [Insertion(0, 7)]) == k + 7
  {
    assert [Insertion(0, 7)][..0] == [];
    assert Displacement(k, [Insertion(0, 7)]) == Displacement(k, []) + 7;
  }

  /** A four-byte big-endian operand. */
  lemma Decode4(b: seq<byte>)
    requires |b| == 4
    ensures DecodeOperand(b) == ((b[0] as int * 256 + b[1] as int) * 256 + b[2] as int) * 256 + b[3] as int
  {
    assert DecodeOperand(b[..1]) == b[0] as int by {
      assert b[..1][..0] == [];
    }
    assert b[..2][..1] == b[..1];
    assert b[..3][..2] == b[..2];
    assert b[..3] == b[..|b| - 1];
  }

  /** The two targets of a SETUPTRY, each in four bytes. */
  lemma ReadTry(ins: seq<byte>)
    requires |ins| == 8
    ensures ReadOperands([4, 4], ins) == [DecodeOperand(ins[..4]), DecodeOperand(ins[4..])]
  {
    assert Sum([4]) == 4 by {
      assert [4][..0] == [];
    }
    assert [4, 4][..1] == [4];
    assert Sum([4, 4]) == 8;
    assert ins[4..8] == ins[4..];
    assert ReadOperands([4], ins) == [DecodeOperand(ins[..4])] by {
      assert [4][..0] == [];
    }
  }

  /** A SETUPTRY whose targets fit in a byte, in front of records `rest`. */
  lemma TryAt(insts: seq<byte>, p: nat, catchPos: byte, finallyPos: byte)
    requires p + 9 <= |insts| && insts[p] == SETUPTRY
    requires insts[p + 1..p + 9] == [0, 0, 0, catchPos, 0, 0, 0, finallyPos]
    requires WellFormed(TestIsa(), insts, p + 9)
    ensures WellFormed(TestIsa(), insts, p)
    ensures RecordsFrom(TestIsa(), insts, p)
      == [PosJump(p, catchPos as int, SETUPTRY, 0, false), PosJump(p, finallyPos as int, SETUPTRY, 1, false)]
         + RecordsFrom(TestIsa(), insts, p + 9)
  {
    var ins := insts[p + 1..p + 9];
    ReadTry(ins);
    Decode4(ins[..4]);
    Decode4(ins[4..]);
    assert CursorAt(TestIsa(), insts, p) == Cursor(p, SETUPTRY, [catchPos as int, finallyPos as int]);
  }
}