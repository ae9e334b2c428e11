/** The Gosched patch of patcher/patcher_test.go whose catch block holds a
    loop: two insertions, one at the top and one before the backward jump of
    the loop, and every jump target moved past the bytes inserted before it. */
module LoopScenario {
  import opened Ugo
  import opened Decoder
  import opened Relocation
  import opened Scan
  import opened Generation
  import opened PatchSpec
  import opened GoschedPolicy
  import opened Update
  import opened Scenarios

  /** a := 2; try { throw a } catch err { for a > 0 { a-- } } finally { return },
      as compiled, statement by statement. */
  const LoopTop: seq<byte> := [CONSTANT, 0, 0, DEFINELOCAL, 0]
  const LoopThrow: seq<byte> := [GETLOCAL, 0, THROW, 1, NULL, DEFINELOCAL, 1]
  const LoopCatch: seq<byte> := [SETUPCATCH, SETLOCAL, 1, GETLOCAL, 0, CONSTANT, 0, 1, BINARYOP, 40]
  const LoopDecrement: seq<byte> := [GETLOCAL, 0, CONSTANT, 0, 2, BINARYOP, 13, SETLOCAL, 0]
  const LoopFinally: seq<byte> := [SETUPFINALLY, RETURN, 0, THROW, 0, RETURN, 0]

  /** The whole function: SETUPTRY at 5, the jump out of the try block at 21,
      the loop test at 36 and the loop's jump back at 50. */
  const LoopCode: seq<byte> :=
    LoopTop + TryBytes(26, 55) + LoopThrow + JumpBytes(JUMP, 55) + LoopCatch
    + JumpBytes(JUMPFALSY, 55) + LoopDecrement + JumpBytes(JUMP, 29) + LoopFinally

  /** Its policy, with the gosched callable at constant index 3. */
  function LoopPolicy(): PatchFunc {
    Policy(TestIsa(), InsertBlob(TestIsa(), 3).value)
  }

  /** A JUMP or JUMPFALSY whose target is below 256. */
  function JumpBytes(op: byte, target: byte): seq<byte> {
    [op, 0, 0, 0, target]
  }

  /** What the proofs below use of that code: the jump instructions with
      their targets, and the runs between them. */
  predicate LoopShape(insts: seq<byte>) {
    var isa := TestIsa();
    && |insts| == 62 && insts[5..14] == TryBytes(26, 55)
    && insts[21..26] == JumpBytes(JUMP, 55)
    && insts[36..41] == JumpBytes(JUMPFALSY, 55)
    && insts[50..55] == JumpBytes(JUMP, 29)
    && Run(isa, insts, 0, 5, true) && Run(isa, insts, 14, 21, true) && Run(isa, insts, 26, 36, true)
    && Run(isa, insts, 41, 50, true) && Run(isa, insts, 55, 62, true)
  }

  /** Two runs in a row make one run. */
  lemma {:induction false} RunJoin(isa: Isa, insts: seq<byte>, p: nat, q: nat, s: nat, plain: bool)
    requires Run(isa, insts, p, q, plain) && Run(isa, insts, q, s, plain) && q <= s
    ensures Run(isa, insts, p, s, plain)
    decreases q - p
  {
    if p != q {
      RunJoin(isa, insts, NextPos(isa, insts, p), q, s, plain);
    }
  }

  /** A run of a window is a run where the window sits. */
  lemma {:induction false} RunIn(isa: Isa, insts: seq<byte>, p: nat, w: seq<byte>, j: nat, plain: bool)
    requires p + |w| <= |insts| && insts[p..p + |w|] == w && Run(isa, w, j, |w|, plain)
    ensures Run(isa, insts, p + j, p + |w|, plain)
    decreases |w| - j
  {
    if j != |w| {
      assert insts[p + j] == w[j];
      RunIn(isa, insts, p, w, NextPos(isa, w, j), plain);
    }
  }

  /** The straight-line pieces decode as plain runs. */
  lemma LoopPieces()
    ensures var isa := TestIsa();
      && Run(isa, LoopTop, 0, 5, true) && Run(isa, LoopThrow, 0, 7, true)
      && Run(isa, LoopCatch, 0, 10, true) && Run(isa, LoopDecrement, 0, 9, true)
      && Run(isa, LoopFinally, 0, 7, true)
  {
    var isa := TestIsa();
    TestWidths();
    assert Run(isa, LoopTop, 3, 5, true);
    assert Run(isa, LoopThrow, 5, 7, true);
    assert Run(isa, LoopThrow, 4, 7, true);
    assert Run(isa, LoopThrow, 2, 7, true);
    assert Run(isa, LoopCatch, 8, 10, true);
    assert Run(isa, LoopCatch, 5, 10, true);
    assert Run(isa, LoopCatch, 3, 10, true);
    assert Run(isa, LoopCatch, 1, 10, true);
    assert Run(isa, LoopDecrement, 7, 9, true);
    assert Run(isa, LoopDecrement, 5, 9, true);
    assert Run(isa, LoopDecrement, 2, 9, true);
    assert Run(isa, LoopFinally, 5, 7, true);
    assert Run(isa, LoopFinally, 3, 7, true);
    assert Run(isa, LoopFinally, 1, 7, true);
  }

  /** Where each piece sits in the function. */
  lemma LoopWindowsOfCode()
    ensures |LoopCode| == 62
    ensures LoopCode[0..5] == LoopTop && LoopCode[5..14] == TryBytes(26, 55)
    ensures LoopCode[14..21] == LoopThrow && LoopCode[21..26] == JumpBytes(JUMP, 55)
    ensures LoopCode[26..36] == LoopCatch && LoopCode[36..41] == JumpBytes(JUMPFALSY, 55)
    ensures LoopCode[41..50] == LoopDecrement && LoopCode[50..55] == JumpBytes(JUMP, 29)
    ensures LoopCode[55..62] == LoopFinally
  {
  }

  lemma LoopShaped()
    ensures LoopShape(LoopCode)
  {
    LoopWindowsOfCode();
    LoopShapedFrom(LoopCode);
  }

  /** A function with the pieces at those places has the shape. */
  lemma LoopShapedFrom(insts: seq<byte>)
    requires |insts| == 62
    requires insts[0..5] == LoopTop && insts[5..14] == TryBytes(26, 55)
    requires insts[14..21] == LoopThrow && insts[21..26] == JumpBytes(JUMP, 55)
    requires insts[26..36] == LoopCatch && insts[36..41] == JumpBytes(JUMPFALSY, 55)
    requires insts[41..50] == LoopDecrement && insts[50..55] == JumpBytes(JUMP, 29)
    requires insts[55..62] == LoopFinally
    ensures LoopShape(insts)
  {
    var isa := TestIsa();
    LoopPieces();
    PieceRun(insts, 0, LoopTop);
    PieceRun(insts, 14, LoopThrow);
    PieceRun(insts, 26, LoopCatch);
    PieceRun(insts, 41, LoopDecrement);
    PieceRun(insts, 55, LoopFinally);
  }

  /** A straight-line piece placed in a function. */
  lemma PieceRun(insts: seq<byte>, p: nat, w: seq<byte>)
    requires p + |w| <= |insts| && insts[p..p + |w|] == w && Run(TestIsa(), w, 0, |w|, true)
    ensures Run(TestIsa(), insts, p, p + |w|, true)
  {
    RunIn(TestIsa(), insts, p, w, 0, true);
  }

  /** The SETUPTRY at 5 and the runs around it, up to the jump at 21. */
  lemma TryRun(insts: seq<byte>)
    requires |insts| == 62 && insts[5..14] == TryBytes(26, 55)
    requires Run(TestIsa(), insts, 0, 5, true) && Run(TestIsa(), insts, 14, 21, true)
    ensures insts[0] < |TestIsa().operands| && NextPos(TestIsa(), insts, 0) <= 5
    ensures Run(TestIsa(), insts, NextPos(TestIsa(), insts, 0), 21, false)
  {
    var isa := TestIsa();
    assert Run(isa, insts, 5, 21, false) by {
      RunWeaker(isa, insts, 14, 21);
      TryStep(insts, 5, 21, 26, 55);
    }
    assert Run(isa, insts, 0, 21, false) by {
      RunWeaker(isa, insts, 0, 5);
      RunJoin(isa, insts, 0, 5, 21, false);
    }
  }

  /** A SETUPTRY in front of a run is a run. */
  lemma TryStep(insts: seq<byte>, p: nat, q: nat, c: byte, f: byte)
    requires p + 9 <= q <= |insts| && insts[p..p + 9] == TryBytes(c, f) && Run(TestIsa(), insts, p + 9, q, false)
    ensures Run(TestIsa(), insts, p, q, false)
  {
    assert insts[p] == insts[p..p + 9][0];
    TestWidths();
  }

  /** The JUMPFALSY at 36 and the runs around it, up to the jump at 50. */
  lemma TestRun(insts: seq<byte>)
    requires |insts| == 62 && insts[36..41] == JumpBytes(JUMPFALSY, 55)
    requires Run(TestIsa(), insts, 26, 36, true) && Run(TestIsa(), insts, 41, 50, true)
    ensures Run(TestIsa(), insts, 26, 50, false)
  {
    var isa := TestIsa();
    RunWeaker(isa, insts, 26, 36);
    RunWeaker(isa, insts, 41, 50);
    JumpCursor(insts, 36, JUMPFALSY, 55);
    assert Run(isa, insts, 36, 50, false);
    RunJoin(isa, insts, 26, 36, 50, false);
  }

  /** The one operand of a JUMP or JUMPFALSY. */
  lemma JumpRead(ins: seq<byte>)
    requires |ins| == 4
    ensures ReadOperands([4], ins) == [DecodeOperand(ins)]
  {
    assert [4][..0] == [];
    SumOne(4);
    assert ins[0..4] == ins;
  }

  /** What the policy and the scan see of such a jump. */
  lemma JumpCursor(insts: seq<byte>, p: nat, op: byte, target: byte)
    requires op == JUMP || op == JUMPFALSY
    requires p + 5 <= |insts| && insts[p..p + 5] == JumpBytes(op, target)
    ensures Fits(TestIsa(), insts, p) && NextPos(TestIsa(), insts, p) == p + 5
    ensures CursorAt(TestIsa(), insts, p) == Cursor(p, op, [target as int])
  {
    TestWidths();
    assert insts[p] == op;
    assert TestIsa().operands[op] == [4];
    var ins := insts[p + 1..p + 5];
    assert ins == [0, 0, 0, target];
    JumpRead(ins);
    Decode4(ins);
  }

  /** The scan records the target of such a jump. */
  lemma JumpRecords(insts: seq<byte>, p: nat, op: byte, target: byte)
    requires op == JUMP || op == JUMPFALSY
    requires p + 5 <= |insts| && insts[p..p + 5] == JumpBytes(op, target)
    requires WellFormed(TestIsa(), insts, p + 5)
    ensures WellFormed(TestIsa(), insts, p)
    ensures RecordsFrom(TestIsa(), insts, p) == [PosJump(p, target as int, op, 0, false)] + RecordsFrom(TestIsa(), insts, p + 5)
  {
    JumpCursor(insts, p, op, target);
  }

  /** Past the top, the policy inserts its bytes before a JUMP exactly when
      the jump goes backward. */
  lemma JumpGen(blob: seq<byte>, insts: seq<byte>, p: nat, target: byte)
    requires 0 < p && p + 5 <= |insts| && insts[p..p + 5] == JumpBytes(JUMP, target)
    requires WellFormed(TestIsa(), insts, p + 5)
    ensures WellFormed(TestIsa(), insts, p)
    ensures var f := Policy(TestIsa(), blob);
      var rest := GenFrom(TestIsa(), f, insts, p + 5);
      GenFrom(TestIsa(), f, insts, p)
        == if (target as int) < p then GenOut(blob + insts[p..p + 5] + rest.out, [Insertion(p, |blob|)] + rest.plan, rest.err)
           else GenOut(insts[p..p + 5] + rest.out, rest.plan, rest.err)
  {
    JumpCursor(insts, p, JUMP, target);
    var c := CursorAt(TestIsa(), insts, p);
    assert BackwardJump(TestIsa(), c) <==> (target as int) < p;
  }

  /** From the catch block on: the backward jump of the loop gets the call. */
  lemma LoopGenTail(blob: seq<byte>, insts: seq<byte>)
    requires |insts| == 62 && insts[50..55] == JumpBytes(JUMP, 29)
    requires Run(TestIsa(), insts, 26, 50, false) && Run(TestIsa(), insts, 55, 62, true)
    ensures WellFormed(TestIsa(), insts, 26)
    ensures GenFrom(TestIsa(), Policy(TestIsa(), blob), insts, 26)
      == GenOut(insts[26..50] + blob + insts[50..], [Insertion(50, |blob|)], None)
  {
    var isa, f := TestIsa(), Policy(TestIsa(), blob);
    assert WellFormed(isa, insts, 55) && GenFrom(isa, f, insts, 55) == GenOut(insts[55..62] + [], [], None) by {
      RunWeaker(isa, insts, 55, 62);
      RunGen(isa, blob, insts, 55, 62);
    }
    assert WellFormed(isa, insts, 50)
      && GenFrom(isa, f, insts, 50) == GenOut(blob + insts[50..55] + (insts[55..62] + []), [Insertion(50, |blob|)], None) by {
      JumpGen(blob, insts, 50, 29);
    }
    RunGen(isa, blob, insts, 26, 50);
    TailGlue(insts[26..50], blob, insts, 50, 55);
  }

  /** The bytes generated from the loop's jump back on, regrouped. */
  lemma TailGlue(x: seq<byte>, blob: seq<byte>, s: seq<byte>, i: nat, j: nat)
    requires i <= j <= |s|
    ensures x + (blob + s[i..j] + (s[j..|s|] + [])) == x + blob + s[i..]
  {
    assert s[i..] == s[i..j] + s[j..|s|];
  }

  /** The bytes generated for the whole function, regrouped. */
  lemma HeadGlue(blob: seq<byte>, s: seq<byte>, a: nat, c: nat, d: nat)
    requires a <= c <= d <= |s|
    ensures blob + s[0..a] + (s[a..c] + (s[c..d] + blob + s[d..])) == blob + s[..d] + blob + s[d..]
  {
    assert s[..d] == s[0..a] + s[a..c] + s[c..d];
  }

  /** The whole function: the call at the top and before the JUMP at 50;
      the forward JUMP at 21 and the JUMPFALSY at 36 get nothing. */
  lemma LoopGen(insts: seq<byte>)
    requires LoopShape(insts)
    ensures WellFormed(TestIsa(), insts, 0) && ScanError(TestIsa(), insts, 0) == None
    ensures var blob := InsertBlob(TestIsa(), 3).value;
      GenFrom(TestIsa(), LoopPolicy(), insts, 0)
        == GenOut(blob + insts[..50] + blob + insts[50..], [Insertion(0, 7), Insertion(50, 7)], None)
  {
    var isa, blob := TestIsa(), InsertBlob(TestIsa(), 3).value;
    TestRun(insts);
    LoopGenTail(blob, insts);
    TryRun(insts);
    var next := NextPos(isa, insts, 0);
    LoopGenHead(blob, insts, insts[26..50] + blob + insts[50..], [Insertion(50, 7)]);
    TopGen(isa, blob, insts);
    HeadGlue(blob, insts, next, 26, 50);
    PolicyGenError(isa, blob, insts, 0);
  }

  /** From the end of the first instruction to the catch block nothing is
      inserted: the jump at 21 goes forward. */
  lemma LoopGenHead(blob: seq<byte>, insts: seq<byte>, out: seq<byte>, plan: seq<Insertion>)
    requires |insts| == 62 && insts[21..26] == JumpBytes(JUMP, 55)
    requires insts[0] < |TestIsa().operands| && NextPos(TestIsa(), insts, 0) <= 5
    requires Run(TestIsa(), insts, NextPos(TestIsa(), insts, 0), 21, false)
    requires WellFormed(TestIsa(), insts, 26) && GenFrom(TestIsa(), Policy(TestIsa(), blob), insts, 26) == GenOut(out, plan, None)
    ensures var next := NextPos(TestIsa(), insts, 0);
      && WellFormed(TestIsa(), insts, next)
      && GenFrom(TestIsa(), Policy(TestIsa(), blob), insts, next) == GenOut(insts[next..26] + out, plan, None)
  {
    var next := NextPos(TestIsa(), insts, 0);
    JumpGen(blob, insts, 21, 55);
    RunGen(TestIsa(), blob, insts, next, 21);
    SliceGlue(insts, next, 21, 26, out);
  }

  /** Two adjacent slices in front of the same bytes, joined. */
  lemma SliceGlue<T>(s: seq<T>, a: nat, b: nat, c: nat, out: seq<T>)
    requires a <= b <= c <= |s|
    ensures s[a..b] + (s[b..c] + out) == s[a..c] + out
  {
    assert s[a..c] == s[a..b] + s[b..c];
  }

  /** The policy inserts its bytes before the first instruction. */
  lemma TopGen(isa: Isa, blob: seq<byte>, insts: seq<byte>)
    requires isa.Valid() && 0 < |insts| && insts[0] < |isa.operands| && NextPos(isa, insts, 0) <= |insts|
    requires WellFormed(isa, insts, NextPos(isa, insts, 0))
    ensures WellFormed(isa, insts, 0)
    ensures var f, next := Policy(isa, blob), NextPos(isa, insts, 0);
      var rest := GenFrom(isa, f, insts, next);
      GenFrom(isa, f, insts, 0) == GenOut(blob + insts[0..next] + rest.out, [Insertion(0, |blob|)] + rest.plan, rest.err)
  {
    assert Policy(isa, blob)(CursorAt(isa, insts, 0)) == (PatchInsertBefore, blob);
  }

  /** The scan records, from the catch block on. */
  lemma LoopRecordsTail(insts: seq<byte>)
    requires |insts| == 62
    requires insts[36..41] == JumpBytes(JUMPFALSY, 55) && insts[50..55] == JumpBytes(JUMP, 29)
    requires Run(TestIsa(), insts, 26, 36, true) && Run(TestIsa(), insts, 41, 50, true)
    requires Run(TestIsa(), insts, 55, 62, true)
    ensures WellFormed(TestIsa(), insts, 26)
    ensures RecordsFrom(TestIsa(), insts, 26)
      == [PosJump(36, 55, JUMPFALSY, 0, false), PosJump(50, 29, JUMP, 0, false)]
  {
    var isa := TestIsa();
    RunScan(isa, insts, 55, 62, true);
    JumpRecords(insts, 50, JUMP, 29);
    RunScan(isa, insts, 41, 50, true);
    JumpRecords(insts, 36, JUMPFALSY, 55);
    RunScan(isa, insts, 26, 36, true);
  }

  /** The scan records up to the catch block, in front of `rest`. */
  lemma LoopRecordsHead(insts: seq<byte>, rest: seq<PosJump>)
    requires |insts| == 62
    requires insts[5..14] == TryBytes(26, 55) && insts[21..26] == JumpBytes(JUMP, 55)
    requires Run(TestIsa(), insts, 0, 5, true) && Run(TestIsa(), insts, 14, 21, true)
    requires WellFormed(TestIsa(), insts, 26) && RecordsFrom(TestIsa(), insts, 26) == rest
    ensures WellFormed(TestIsa(), insts, 0)
    ensures RecordsFrom(TestIsa(), insts, 0)
      == [PosJump(5, 26, SETUPTRY, 0, false), PosJump(5, 55, SETUPTRY, 1, false), PosJump(21, 55, JUMP, 0, false)]
         + rest
  {
    var j := PosJump(21, 55, JUMP, 0, false);
    ScanThrow(insts, rest);
    ScanTry(insts, [j] + rest);
    ListGlue(PosJump(5, 26, SETUPTRY, 0, false), PosJump(5, 55, SETUPTRY, 1, false), j, rest);
  }

  /** A list with one more element in front of the rest. */
  lemma ListGlue<T>(a: T, b: T, c: T, rest: seq<T>)
    ensures [a, b] + ([c] + rest) == [a, b, c] + rest
  {
    assert ([a, b] + ([c] + rest))[2..] == [c] + rest;
  }

  /** The scan from the throw statement on: the jump out of the try block. */
  lemma ScanThrow(insts: seq<byte>, rest: seq<PosJump>)
    requires |insts| == 62 && insts[21..26] == JumpBytes(JUMP, 55) && Run(TestIsa(), insts, 14, 21, true)
    requires WellFormed(TestIsa(), insts, 26) && RecordsFrom(TestIsa(), insts, 26) == rest
    ensures WellFormed(TestIsa(), insts, 14)
    ensures RecordsFrom(TestIsa(), insts, 14) == [PosJump(21, 55, JUMP, 0, false)] + rest
  {
    JumpRecords(insts, 21, JUMP, 55);
    RunScan(TestIsa(), insts, 14, 21, true);
  }

  /** The scan from the top: the two SETUPTRY targets. */
  lemma ScanTry(insts: seq<byte>, rest: seq<PosJump>)
    requires |insts| == 62 && insts[5..14] == TryBytes(26, 55) && Run(TestIsa(), insts, 0, 5, true)
    requires WellFormed(TestIsa(), insts, 14) && RecordsFrom(TestIsa(), insts, 14) == rest
    ensures WellFormed(TestIsa(), insts, 0)
    ensures RecordsFrom(TestIsa(), insts, 0)
      == [PosJump(5, 26, SETUPTRY, 0, false), PosJump(5, 55, SETUPTRY, 1, false)] + rest
  {
    TryWindow(insts, 5, 26, 55);
    RunScan(TestIsa(), insts, 0, 5, true);
  }

  /** The scan records both targets of such a SETUPTRY. */
  lemma TryWindow(insts: seq<byte>, p: nat, catchPos: byte, finallyPos: byte)
    requires p + 9 <= |insts| && insts[p..p + 9] == TryBytes(catchPos, finallyPos)
    requires WellFormed(TestIsa(), insts, p + 9)
    ensures WellFormed(TestIsa(), insts, p)
    ensures RecordsFrom(TestIsa(), insts, p)
      == [PosJump(p, catchPos as int, SETUPTRY, 0, false), PosJump(p, finallyPos as int, SETUPTRY, 1, false)]
         + RecordsFrom(TestIsa(), insts, p + 9)
  {
    assert insts[p] == SETUPTRY;
    assert insts[p + 1..p + 9] == [0, 0, 0, catchPos, 0, 0, 0, finallyPos] by {
      assert insts[p + 1..p + 9] == TryBytes(catchPos, finallyPos)[1..];
    }
    TryAt(insts, p, catchPos, finallyPos);
  }

  /** The scan records the two SETUPTRY targets and the three jumps. */
  lemma LoopRecords(insts: seq<byte>)
    requires LoopShape(insts)
    ensures WellFormed(TestIsa(), insts, 0)
    ensures RecordsFrom(TestIsa(), insts, 0)
      == [PosJump(5, 26, SETUPTRY, 0, false), PosJump(5, 55, SETUPTRY, 1, false),
          PosJump(21, 55, JUMP, 0, false), PosJump(36, 55, JUMPFALSY, 0, false), PosJump(50, 29, JUMP, 0, false)]
  {
    LoopRecordsTail(insts);
    LoopRecordsHead(insts, [PosJump(36, 55, JUMPFALSY, 0, false), PosJump(50, 29, JUMP, 0, false)]);
  }

  /** A record after two insertions. */
  lemma FoldTwo(isa: Isa, r: PosJump, a: Insertion, b: Insertion)
    ensures FoldRecord(isa, r, [a, b]) == r.InsertAt(isa, a).InsertAt(isa, b)
  {
    assert [a, b][..1] == [a];
    FoldOne(isa, r, a);
  }

  /** The records after both insertions: every target at or past an
      insertion moves by seven; the loop's jump back to 29 moves to 36. */
  lemma LoopMoved(insts: seq<byte>)
    requires LoopShape(insts)
    ensures WellFormed(TestIsa(), insts, 0)
    ensures MovedRecords(TestIsa(), LoopPolicy(), insts)
      == [PosJump(12, 33, SETUPTRY, 0, true), PosJump(12, 69, SETUPTRY, 1, true),
          PosJump(28, 69, JUMP, 0, true), PosJump(43, 69, JUMPFALSY, 0, true), PosJump(64, 36, JUMP, 0, true)]
  {
    LoopGen(insts);
    LoopRecords(insts);
    var a, b := Insertion(0, 7), Insertion(50, 7);
    assert ToOutput([a, b]) == [a, Insertion(57, 7)] by {
      assert [a, b][..1] == [a] && [a][..0] == [];
      assert Total([a]) == 7;
    }
    LoopFolds();
  }

  /** The five records, folded over the two insertions in output
      coordinates. */
  lemma LoopFolds()
    ensures var outs := [Insertion(0, 7), Insertion(57, 7)];
      FoldRecords(TestIsa(),
        [PosJump(5, 26, SETUPTRY, 0, false), PosJump(5, 55, SETUPTRY, 1, false),
         PosJump(21, 55, JUMP, 0, false), PosJump(36, 55, JUMPFALSY, 0, false), PosJump(50, 29, JUMP, 0, false)],
        outs)
      == [PosJump(12, 33, SETUPTRY, 0, true), PosJump(12, 69, SETUPTRY, 1, true),
          PosJump(28, 69, JUMP, 0, true), PosJump(43, 69, JUMPFALSY, 0, true), PosJump(64, 36, JUMP, 0, true)]
  {
    var isa, a, b := TestIsa(), Insertion(0, 7), Insertion(57, 7);
    FoldTwo(isa, PosJump(5, 26, SETUPTRY, 0, false), a, b);
    FoldTwo(isa, PosJump(5, 55, SETUPTRY, 1, false), a, b);
    FoldTwo(isa, PosJump(21, 55, JUMP, 0, false), a, b);
    FoldTwo(isa, PosJump(36, 55, JUMPFALSY, 0, false), a, b);
    FoldTwo(isa, PosJump(50, 29, JUMP, 0, false), a, b);
  }

  /** Rewriting one byte of a window is splicing the rewritten window. */
  lemma SpliceByte(buf: seq<byte>, p: nat, w: seq<byte>, j: nat, v: byte)
    requires p + |w| <= |buf| && buf[p..p + |w|] == w && j < |w|
    ensures buf[..p] + w[j := v] + buf[p + |w|..] == buf[p + j := v]
  {
    var s := buf[..p] + w[j := v] + buf[p + |w|..];
    assert forall i :: 0 <= i < |buf| ==> s[i] == buf[p + j := v][i] by {
      forall i | 0 <= i < |buf| ensures s[i] == buf[p + j := v][i] {
        if p <= i < p + |w| {
          assert buf[i] == w[i - p];
        }
      }
    }
  }

  /** A window after one of its bytes is rewritten. */
  lemma WindowSet(buf: seq<byte>, p: nat, w: seq<byte>, j: nat, v: byte)
    requires p + |w| <= |buf| && buf[p..p + |w|] == w && j < |w|
    ensures buf[p + j := v][p..p + |w|] == w[j := v]
  {
  }

  /** A window after a byte outside it is rewritten. */
  lemma WindowKept(buf: seq<byte>, p: nat, n: nat, k: nat, v: byte)
    requires p + n <= |buf| && k < |buf| && (k < p || p + n <= k)
    ensures buf[k := v][p..p + n] == buf[p..p + n]
  {
  }

  /** updateJumps rewrites the target byte of such a jump in place. */
  lemma UpdateJump(buf: seq<byte>, p: nat, op: byte, was: byte, v: byte)
    requires op == JUMP || op == JUMPFALSY
    requires p + 5 <= |buf| && buf[p..p + 5] == JumpBytes(op, was)
    ensures var r := PosJump(p, v as int, op, 0, true);
      && RecordFits(TestIsa(), r, |buf|)
      && UpdateOne(TestIsa(), r, buf) == Updated(buf[p + 4 := v], None)
  {
    var isa := TestIsa();
    var r := PosJump(p, v as int, op, 0, true);
    JumpOperand(buf, r, was);
    JumpEncode(op, v);
    assert JumpBytes(op, v) == JumpBytes(op, was)[4 := v];
    SpliceByte(buf, p, JumpBytes(op, was), 4, v);
  }

  /** The operand updateJumps reads from such a jump. */
  lemma JumpOperand(buf: seq<byte>, r: PosJump, was: byte)
    requires r.opcode == JUMP || r.opcode == JUMPFALSY
    requires r.operand == 0 && 0 <= r.pos && r.pos + 5 <= |buf| && buf[r.pos..r.pos + 5] == JumpBytes(r.opcode, was)
    ensures RecordFits(TestIsa(), r, |buf|) && buf[r.pos] == r.opcode
    ensures OperandsIn(TestIsa(), buf, r) == [was as int]
  {
    JumpCursor(buf, r.pos, r.opcode, was);
  }

  /** MakeInstruction for a JUMP or JUMPFALSY with a target below 256. */
  lemma JumpEncode(op: byte, v: byte)
    requires op == JUMP || op == JUMPFALSY
    ensures var m := MakeInstruction(TestIsa(), op, [v as int]);
      m.Ok? && m.value == JumpBytes(op, v)
  {
    assert TestIsa().operands[op] == [4];
    Encode4(v);
    assert EncodeOperands([4], [v as int]) == EncodeOperand(v as int, 4) by {
      assert [4][..0] == [] && [v as int][..0] == [];
    }
  }

  /** updateJumps rewrites one target byte of a SETUPTRY in place. */
  lemma UpdateTryByte(buf: seq<byte>, p: nat, catchPos: byte, finallyPos: byte, slot: nat, v: byte)
    requires slot < 2 && p + 9 <= |buf| && buf[p..p + 9] == TryBytes(catchPos, finallyPos)
    ensures var r := PosJump(p, v as int, SETUPTRY, slot, true);
      && RecordFits(TestIsa(), r, |buf|)
      && UpdateOne(TestIsa(), r, buf) == Updated(buf[p + 4 + 4 * slot := v], None)
  {
    UpdateTry(buf, p, catchPos, finallyPos, slot, v);
    if slot == 0 {
      assert TryBytes(v, finallyPos) == TryBytes(catchPos, finallyPos)[4 := v];
    } else {
      assert TryBytes(catchPos, v) == TryBytes(catchPos, finallyPos)[8 := v];
    }
    SpliceByte(buf, p, TryBytes(catchPos, finallyPos), 4 + 4 * slot, v);
  }

  /** updateJumps over a record that succeeds, then the rest. */
  lemma UpdateCons(isa: Isa, r: PosJump, rs: seq<PosJump>, buf: seq<byte>, buf1: seq<byte>)
    requires r.updated && RecordFits(isa, r, |buf|) && UpdateOne(isa, r, buf) == Updated(buf1, None)
    requires forall x :: x in rs && x.updated ==> RecordFits(isa, x, |buf|)
    ensures forall x :: x in [r] + rs && x.updated ==> RecordFits(isa, x, |buf|)
    ensures UpdateFrom(isa, [r] + rs, buf) == UpdateFrom(isa, rs, buf1)
  {
    assert ([r] + rs)[1..] == rs;
  }

  /** The last three updates: the jumps at 28, 43 and 64. */
  lemma LoopJumpUpdates(buf: seq<byte>)
    requires |buf| == 76
    requires buf[28..33] == JumpBytes(JUMP, 55) && buf[43..48] == JumpBytes(JUMPFALSY, 55)
    requires buf[64..69] == JumpBytes(JUMP, 29)
    ensures var rs := [PosJump(28, 69, JUMP, 0, true), PosJump(43, 69, JUMPFALSY, 0, true), PosJump(64, 36, JUMP, 0, true)];
      && (forall x :: x in rs ==> RecordFits(TestIsa(), x, |buf|))
      && UpdateFrom(TestIsa(), rs, buf) == Updated(buf[32 := 69][47 := 69][68 := 36], None)
  {
    var isa := TestIsa();
    var r2, r3, r4 := PosJump(28, 69, JUMP, 0, true), PosJump(43, 69, JUMPFALSY, 0, true), PosJump(64, 36, JUMP, 0, true);
    var b1 := buf[32 := 69];
    var b2 := b1[47 := 69];
    UpdateJump(buf, 28, JUMP, 55, 69);
    WindowKept(buf, 43, 5, 32, 69);
    WindowKept(buf, 64, 5, 32, 69);
    LoopLastUpdates(b1);
    UpdateCons(isa, r2, [r3, r4], buf, b1);
    assert [r2] + [r3, r4] == [r2, r3, r4];
  }

  /** The updates of the loop test at 43 and of the jump back at 64. */
  lemma LoopLastUpdates(buf: seq<byte>)
    requires |buf| == 76 && buf[43..48] == JumpBytes(JUMPFALSY, 55) && buf[64..69] == JumpBytes(JUMP, 29)
    ensures var r3, r4 := PosJump(43, 69, JUMPFALSY, 0, true), PosJump(64, 36, JUMP, 0, true);
      && RecordFits(TestIsa(), r3, |buf|) && RecordFits(TestIsa(), r4, |buf|)
      && UpdateFrom(TestIsa(), [r3, r4], buf) == Updated(buf[47 := 69][68 := 36], None)
  {
    var b1 := buf[47 := 69];
    UpdateJump(buf, 43, JUMPFALSY, 55, 69);
    WindowKept(buf, 64, 5, 47, 69);
    UpdateJump(b1, 64, JUMP, 29, 36);
    UpdateTwo(TestIsa(), PosJump(43, 69, JUMPFALSY, 0, true), PosJump(64, 36, JUMP, 0, true), buf, b1, b1[68 := 36]);
  }

  /** The first two updates: both targets of the SETUPTRY at 12. */
  lemma LoopTryUpdates(buf: seq<byte>)
    requires |buf| == 76 && buf[12..21] == TryBytes(26, 55)
    ensures var r0, r1 := PosJump(12, 33, SETUPTRY, 0, true), PosJump(12, 69, SETUPTRY, 1, true);
      && RecordFits(TestIsa(), r0, |buf|) && RecordFits(TestIsa(), r1, |buf|)
      && UpdateOne(TestIsa(), r0, buf) == Updated(buf[16 := 33], None)
      && UpdateOne(TestIsa(), r1, buf[16 := 33]) == Updated(buf[16 := 33][20 := 69], None)
  {
    UpdateTryByte(buf, 12, 26, 55, 0, 33);
    WindowSet(buf, 12, TryBytes(26, 55), 4, 33);
    assert TryBytes(26, 55)[4 := 33] == TryBytes(33, 55);
    UpdateTryByte(buf[16 := 33], 12, 33, 55, 1, 69);
  }

  /** The SETUPTRY updates leave the three jumps alone. */
  lemma JumpsKept(buf: seq<byte>)
    requires |buf| == 76
    requires buf[28..33] == JumpBytes(JUMP, 55) && buf[43..48] == JumpBytes(JUMPFALSY, 55)
    requires buf[64..69] == JumpBytes(JUMP, 29)
    ensures var b := buf[16 := 33][20 := 69];
      && b[28..33] == JumpBytes(JUMP, 55) && b[43..48] == JumpBytes(JUMPFALSY, 55)
      && b[64..69] == JumpBytes(JUMP, 29)
  {
    var b1 := buf[16 := 33];
    WindowKept(buf, 28, 5, 16, 33);
    WindowKept(buf, 43, 5, 16, 33);
    WindowKept(buf, 64, 5, 16, 33);
    WindowKept(b1, 28, 5, 20, 69);
    WindowKept(b1, 43, 5, 20, 69);
    WindowKept(b1, 64, 5, 20, 69);
  }

  /** All five updates. */
  lemma LoopUpdates(buf: seq<byte>)
    requires |buf| == 76 && buf[12..21] == TryBytes(26, 55)
    requires buf[28..33] == JumpBytes(JUMP, 55) && buf[43..48] == JumpBytes(JUMPFALSY, 55)
    requires buf[64..69] == JumpBytes(JUMP, 29)
    ensures var rs := [PosJump(12, 33, SETUPTRY, 0, true), PosJump(12, 69, SETUPTRY, 1, true),
                       PosJump(28, 69, JUMP, 0, true), PosJump(43, 69, JUMPFALSY, 0, true), PosJump(64, 36, JUMP, 0, true)];
      && (forall x :: x in rs ==> RecordFits(TestIsa(), x, |buf|))
      && UpdateFrom(TestIsa(), rs, buf) == Updated(buf[16 := 33][20 := 69][32 := 69][47 := 69][68 := 36], None)
  {
    var isa := TestIsa();
    var r0, r1 := PosJump(12, 33, SETUPTRY, 0, true), PosJump(12, 69, SETUPTRY, 1, true);
    var tail := [PosJump(28, 69, JUMP, 0, true), PosJump(43, 69, JUMPFALSY, 0, true), PosJump(64, 36, JUMP, 0, true)];
    var b1 := buf[16 := 33];
    LoopTryUpdates(buf);
    AfterFirstUpdate(buf);
    UpdateCons(isa, r0, [r1] + tail, buf, b1);
    assert [r0] + ([r1] + tail) == [r0, r1] + tail;
  }

  /** Every update after the first, from the buffer the first one leaves. */
  lemma AfterFirstUpdate(buf: seq<byte>)
    requires |buf| == 76 && buf[12..21] == TryBytes(26, 55)
    requires buf[28..33] == JumpBytes(JUMP, 55) && buf[43..48] == JumpBytes(JUMPFALSY, 55)
    requires buf[64..69] == JumpBytes(JUMP, 29)
    ensures var rs := [PosJump(12, 69, SETUPTRY, 1, true)]
                      + [PosJump(28, 69, JUMP, 0, true), PosJump(43, 69, JUMPFALSY, 0, true), PosJump(64, 36, JUMP, 0, true)];
      && (forall x :: x in rs ==> RecordFits(TestIsa(), x, |buf|))
      && UpdateFrom(TestIsa(), rs, buf[16 := 33]) == Updated(buf[16 := 33][20 := 69][32 := 69][47 := 69][68 := 36], None)
  {
    var isa := TestIsa();
    var r1 := PosJump(12, 69, SETUPTRY, 1, true);
    var tail := [PosJump(28, 69, JUMP, 0, true), PosJump(43, 69, JUMPFALSY, 0, true), PosJump(64, 36, JUMP, 0, true)];
    var b1 := buf[16 := 33];
    LoopTryUpdates(buf);
    JumpsKept(buf);
    LoopJumpUpdates(b1[20 := 69]);
    UpdateCons(isa, r1, tail, b1, b1[20 := 69]);
  }

  /** The jumps sit in the generated bytes where the insertions moved them. */
  lemma LoopWindows(blob: seq<byte>, insts: seq<byte>)
    requires |blob| == 7 && |insts| == 62
    requires insts[5..14] == TryBytes(26, 55) && insts[21..26] == JumpBytes(JUMP, 55)
    requires insts[36..41] == JumpBytes(JUMPFALSY, 55) && insts[50..55] == JumpBytes(JUMP, 29)
    ensures var buf := blob + insts[..50] + blob + insts[50..];
      && |buf| == 76 && buf[12..21] == TryBytes(26, 55)
      && buf[28..33] == JumpBytes(JUMP, 55) && buf[43..48] == JumpBytes(JUMPFALSY, 55)
      && buf[64..69] == JumpBytes(JUMP, 29)
  {
    var front := blob + insts[..50];
    SliceAfter(blob, insts[..50], 5, 9);
    SliceAfter(blob, insts[..50], 21, 5);
    SliceAfter(blob, insts[..50], 36, 5);
    SliceAfter(front + blob, insts[50..], 0, 5);
    assert front + blob + insts[50..] == blob + insts[..50] + blob + insts[50..];
  }

  /** updateJumps on the loop: each target byte rewritten in place. */
  lemma LoopFinal(insts: seq<byte>)
    requires LoopShape(insts)
    ensures WellFormed(TestIsa(), insts, 0) && Generated(TestIsa(), LoopPolicy(), insts)
    ensures var isa, f := TestIsa(), LoopPolicy();
      var recs, out := MovedRecords(isa, f, insts), GenFrom(isa, f, insts, 0).out;
      && (forall r :: r in recs && r.updated ==> RecordFits(isa, r, |out|))
      && var u := UpdateFrom(isa, recs, out);
      && u.err == None && |out| == 76
      && u.buf == out[16 := 33][20 := 69][32 := 69][47 := 69][68 := 36]
  {
    LoopGen(insts);
    LoopMoved(insts);
    var blob := InsertBlob(TestIsa(), 3).value;
    LoopWindows(blob, insts);
    LoopUpdates(blob + insts[..50] + blob + insts[50..]);
  }

  /** The patch of a function of that shape, for any source map. */
  lemma LoopPatch(insts: seq<byte>, sm: map<int, int>, order: seq<int>)
    requires LoopShape(insts) && Enumerates(order, sm)
    ensures var isa, blob := TestIsa(), InsertBlob(TestIsa(), 3).value;
      && WellFormed(isa, insts, 0)
      && var r := PatchFunction(isa, LoopPolicy(), insts, sm, order);
      && r.err.None? && r.inserted == 2
      && r.insts == (blob + insts[..50] + blob + insts[50..])[16 := 33][20 := 69][32 := 69][47 := 69][68 := 36]
      && GenFrom(isa, LoopPolicy(), insts, 0).plan == [Insertion(0, 7), Insertion(50, 7)]
  {
    LoopGen(insts);
    LoopFinal(insts);
  }

  /** Nonnegative keys before the loop's jump back move by seven, the others
      by fourteen. */
  lemma LoopKeys(k: int)
    requires 0 <= k
    ensures Relocated(k, [Insertion(0, 7), Insertion(50, 7)]) == if k < 50 then k + 7 else k + 14
  {
    var plan := [Insertion(0, 7), Insertion(50, 7)];
    assert plan[..1] == [Insertion(0, 7)];
    TopKeys(k);
  }

  /** The source map of a patch with those two insertions. */
  lemma LoopSourceMap(isa: Isa, f: PatchFunc, insts: seq<byte>, sm: map<int, int>, order: seq<int>)
    requires isa.Valid() && WellFormed(isa, insts, 0) && Enumerates(order, sm)
    requires PatchFunction(isa, f, insts, sm, order).err.None?
    requires GenFrom(isa, f, insts, 0).plan == [Insertion(0, 7), Insertion(50, 7)]
    requires forall k :: k in sm ==> 0 <= k
    ensures var m := PatchFunction(isa, f, insts, sm, order).sourceMap;
      && (forall k :: k in m <==> (k < 57 && k - 7 in sm) || (64 <= k && k - 14 in sm))
      && (forall k :: k in m ==> m[k] == sm[if k < 57 then k - 7 else k - 14])
  {
    var m := PatchFunction(isa, f, insts, sm, order).sourceMap;
    forall k ensures (k in m <==> (k < 57 && k - 7 in sm) || (64 <= k && k - 14 in sm))
                     && (k in m ==> m[k] == sm[if k < 57 then k - 7 else k - 14])
    {
      LoopKey(isa, f, insts, sm, order, k);
    }
  }

  /** One key of the patched source map. */
  lemma LoopKey(isa: Isa, f: PatchFunc, insts: seq<byte>, sm: map<int, int>, order: seq<int>, k: int)
    requires isa.Valid() && WellFormed(isa, insts, 0) && Enumerates(order, sm)
    requires PatchFunction(isa, f, insts, sm, order).err.None?
    requires GenFrom(isa, f, insts, 0).plan == [Insertion(0, 7), Insertion(50, 7)]
    requires forall k :: k in sm ==> 0 <= k
    ensures var m := PatchFunction(isa, f, insts, sm, order).sourceMap;
      && (k in m <==> (k < 57 && k - 7 in sm) || (64 <= k && k - 14 in sm))
      && (k in m ==> m[k] == sm[if k < 57 then k - 7 else k - 14])
  {
    var m := PatchFunction(isa, f, insts, sm, order).sourceMap;
    if k < 57 && k - 7 in sm {
      KeyMoved(isa, f, insts, sm, order, k - 7);
      LoopKeys(k - 7);
    }
    if 64 <= k && k - 14 in sm {
      KeyMoved(isa, f, insts, sm, order, k - 14);
      LoopKeys(k - 14);
    }
    if k in m {
      var j := KeyOrigin(isa, f, insts, sm, order, k);
      LoopKeys(j);
      KeyMoved(isa, f, insts, sm, order, j);
    }
  }

  /** The bytes the policy inserts: CONSTANT 3, CALL 0 0, POP. */
  const LoopCall: seq<byte> := [CONSTANT, 0, 3, CALL, 0, 0, POP]

  /** The five rewritten target bytes, statement by statement. */
  lemma Rewritten(blob: seq<byte>, a: seq<byte>, b: seq<byte>, c: seq<byte>, d: seq<byte>, e: seq<byte>)
    requires |blob| == 7 && |a| == 5 && |b| == 7 && |c| == 10 && |d| == 9
    ensures var code := a + TryBytes(26, 55) + b + JumpBytes(JUMP, 55) + c
                        + JumpBytes(JUMPFALSY, 55) + d + JumpBytes(JUMP, 29) + e;
      (blob + code[..50] + blob + code[50..])[16 := 33][20 := 69][32 := 69][47 := 69][68 := 36]
      == blob + a + TryBytes(33, 69) + b + JumpBytes(JUMP, 69) + c
         + JumpBytes(JUMPFALSY, 69) + d + blob + JumpBytes(JUMP, 36) + e
  {
    var front := a + TryBytes(26, 55) + b + JumpBytes(JUMP, 55) + c + JumpBytes(JUMPFALSY, 55) + d;
    var code := front + JumpBytes(JUMP, 29) + e;
    assert code[..50] == front;
    assert code[50..] == JumpBytes(JUMP, 29) + e;
  }

  /** The expected output of the loop-in-catch test: two calls inserted,
      the SETUPTRY targets moved to 33 and 69, the forward jumps to 69, the
      loop's jump back to 36; source-map keys before the loop's jump back
      move by 7 and the others by 14. */
  lemma TryCatchLoop(sm: map<int, int>, order: seq<int>)
    requires Enumerates(order, sm) && forall k :: k in sm ==> 0 <= k
    ensures var isa, insts := TestIsa(), LoopCode;
      && WellFormed(isa, insts, 0)
      && var r := PatchFunction(isa, LoopPolicy(), insts, sm, order);
      && r.err.None? && r.inserted == 2
      && r.insts
         == LoopCall + LoopTop + TryBytes(33, 69) + LoopThrow + JumpBytes(JUMP, 69) + LoopCatch
            + JumpBytes(JUMPFALSY, 69) + LoopDecrement + LoopCall + JumpBytes(JUMP, 36) + LoopFinally
      && (forall k :: k in r.sourceMap <==> (k < 57 && k - 7 in sm) || (64 <= k && k - 14 in sm))
      && (forall k :: k in r.sourceMap ==> r.sourceMap[k] == sm[if k < 57 then k - 7 else k - 14])
  {
    LoopShaped();
    LoopPatch(LoopCode, sm, order);
    LoopSourceMap(TestIsa(), LoopPolicy(), LoopCode, sm, order);
    TestBlob(3);
    Rewritten(LoopCall, LoopTop, LoopThrow, LoopCatch, LoopDecrement, LoopFinally);
  }
}
