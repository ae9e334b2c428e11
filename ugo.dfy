/** The parts of the foreign ugo package that the patcher relies on: the byte,
    the opcodes it names, the per-opcode operand-width table
    (ugo.OpcodeOperands) and the instruction encoder and decoder
    (ugo.MakeInstruction, ugo.ReadOperands).

    The opcode numbering belongs to ugo and is not fixed here: an `Isa` value
    carries the numbers of the opcodes the patcher names, and `Isa.Valid`
    fixes only what the patched dumps of the tests show about them (the
    operand widths). Operands are big-endian and keep the low 8*w bits of the
    value, as Go's unsigned conversions do. */
module Ugo {

  type byte = x: int | 0 <= x < 256

  datatype Option<T> = None | Some(value: T)

  datatype Result<T> = Ok(value: T) | Err(error: Error)

  /** The errors the patcher surfaces, with the values its messages print. */
  datatype Error =
    | InvalidOpcode(opcode: byte, at: int)          // the iterator met an opcode outside the table
    | UnknownPatchOp(op: byte)                       // the policy returned an unknown action
    | OpcodesMismatch(expected: byte, got: byte)     // updateJumps found another opcode at a record
    | OperandCount(instr: byte, want: nat, given: nat)  // MakeInstruction got the wrong arity

  /** The instruction set: ugo.OpcodeOperands and the opcodes the patcher names. */
  datatype Isa = Isa(
    operands: seq<seq<nat>>,
    opConstant: byte, opCall: byte, opPop: byte,
    opJump: byte, opJumpFalsy: byte, opAndJump: byte, opOrJump: byte,
    opSetupTry: byte)
  {
    /** Every named opcode has a row in the table, with the widths the test dumps show
        (CONSTANT 3 bytes, CALL 3, POP 1, the jumps 5, SETUPTRY 9). */
    predicate Valid() {
      && opConstant < |operands| && operands[opConstant] == [2]
      && opCall < |operands| && operands[opCall] == [1, 1]
      && opPop < |operands| && operands[opPop] == []
      && opJump < |operands| && operands[opJump] == [4]
      && opJumpFalsy < |operands| && operands[opJumpFalsy] == [4]
      && opAndJump < |operands| && operands[opAndJump] == [4]
      && opOrJump < |operands| && operands[opOrJump] == [4]
      && opSetupTry < |operands| && operands[opSetupTry] == [4, 4]
    }

    /** Opcodes with one jump target operand. */
    predicate IsSingleJump(op: byte) {
      op == opJumpFalsy || op == opJump || op == opAndJump || op == opOrJump
    }

    /** Number of operand bytes of `op` (one entry of the patcher's opWidths). */
    function Width(op: nat): nat
      requires op < |operands|
    {
      Sum(operands[op])
    }
  }

  /** Sum of a sequence of widths, accumulated front to back. */
  function Sum(ws: seq<nat>): nat {
    if ws == [] then 0 else Sum(ws[..|ws| - 1]) + ws[|ws| - 1]
  }

  function Pow256(w: nat): (r: nat)
    ensures r > 0
  {
    if w == 0 then 1 else 256 * Pow256(w - 1)
  }

  /** The low 8*w bits of v: what an operand of width w can hold. */
  function Truncate(v: int, w: nat): (t: nat)
    ensures t < Pow256(w)
  {
    v % Pow256(w)
  }

  /** Big-endian encoding of the low 8*w bits of v. */
  function EncodeOperand(v: int, w: nat): (r: seq<byte>)
    ensures |r| == w
    decreases w
  {
    if w == 0 then [] else EncodeOperand(v / 256, w - 1) + [v % 256]
  }

  /** Big-endian decoding of an unsigned operand. */
  function DecodeOperand(b: seq<byte>): (r: nat)
    ensures r < Pow256(|b|)
  {
    if b == [] then 0
    else
      var hi := DecodeOperand(b[..|b| - 1]);
      assert hi * 256 <= (Pow256(|b| - 1) - 1) * 256;
      hi * 256 + b[|b| - 1]
  }

  /** v mod (256 * m) from its last byte and the rest. */
  lemma ModSplit(v: int, m: nat)
    requires m > 0
    ensures v % (256 * m) == ((v / 256) % m) * 256 + v % 256
  {
    var a, b := v / 256, v % 256;
    var q, r := a / m, a % m;
    assert v == 256 * a + b;
    assert a == m * q + r;
    assert v == (256 * m) * q + (r * 256 + b);
    assert 0 <= r * 256 + b < 256 * m;
    DivModUnique(v, 256 * m, q, r * 256 + b);
  }

  lemma DivModUnique(v: int, d: int, q: int, r: int)
    requires d > 0 && v == d * q + r && 0 <= r < d
    ensures v % d == r && v / d == q
  {
    var k := v / d - q;
    assert d * k == r - v % d;
  }

  /** Decoding an encoded operand gives the value modulo the width's range. */
  lemma {:induction false} DecodeEncode(v: int, w: nat)
    ensures DecodeOperand(EncodeOperand(v, w)) == Truncate(v, w)
    decreases w
  {
    if w > 0 {
      var e := EncodeOperand(v, w);
      assert e[..w - 1] == EncodeOperand(v / 256, w - 1);
      DecodeEncode(v / 256, w - 1);
      ModSplit(v, Pow256(w - 1));
    }
  }

  /** Encoding a decoded operand gives back its bytes. */
  lemma {:induction false} EncodeDecode(b: seq<byte>)
    ensures EncodeOperand(DecodeOperand(b), |b|) == b
  {
    if b != [] {
      var n := |b|;
      var hi := DecodeOperand(b[..n - 1]);
      var v := DecodeOperand(b);
      assert v / 256 == hi && v % 256 == b[n - 1] by {
        DivModUnique(v, 256, hi, b[n - 1]);
      }
      EncodeDecode(b[..n - 1]);
      assert b == b[..n - 1] + [b[n - 1]];
    }
  }

  /** ugo.ReadOperands: the operands of the given widths at the front of `ins`. */
  function ReadOperands(widths: seq<nat>, ins: seq<byte>): (r: seq<nat>)
    requires Sum(widths) <= |ins|
    ensures |r| == |widths|
  {
    if widths == [] then []
    else
      var n := |widths|;
      var front := widths[..n - 1];
      ReadOperands(front, ins) + [DecodeOperand(ins[Sum(front)..Sum(widths)])]
  }

  /** The operand bytes that ugo.MakeInstruction appends after the opcode. */
  function EncodeOperands(widths: seq<nat>, args: seq<int>): (r: seq<byte>)
    requires |args| == |widths|
    ensures |r| == Sum(widths)
  {
    if widths == [] then []
    else
      var n := |widths|;
      EncodeOperands(widths[..n - 1], args[..n - 1]) + EncodeOperand(args[n - 1], widths[n - 1])
  }

  /** ugo.MakeInstruction: the opcode byte followed by its encoded operands, or
      an error when the number of operands does not match the table. */
  function MakeInstruction(isa: Isa, op: byte, args: seq<int>): (r: Result<seq<byte>>)
    requires op < |isa.operands|
    ensures r.Ok? <==> |args| == |isa.operands[op]|
    ensures r.Ok? ==> |r.value| == 1 + isa.Width(op) && r.value[0] == op
  {
    var widths := isa.operands[op];
    if |args| != |widths| then Err(OperandCount(op, |widths|, |args|))
    else Ok([op] + EncodeOperands(widths, args))
  }

  /** Reading encoded operands gives every argument modulo its width's range. */
  lemma {:induction false} ReadEncodeOperands(widths: seq<nat>, args: seq<int>, rest: seq<byte>)
    requires |args| == |widths|
    ensures Sum(widths) <= |EncodeOperands(widths, args) + rest|
    ensures forall i :: 0 <= i < |widths| ==>
      ReadOperands(widths, EncodeOperands(widths, args) + rest)[i] == Truncate(args[i], widths[i])
  {
    var ins := EncodeOperands(widths, args) + rest;
    if widths != [] {
      var n := |widths|;
      var front, fargs := widths[..n - 1], args[..n - 1];
      var fenc := EncodeOperands(front, fargs);
      var last := EncodeOperand(args[n - 1], widths[n - 1]);
      assert ins == fenc + (last + rest);
      ReadEncodeOperands(front, fargs, last + rest);
      assert ins[Sum(front)..Sum(widths)] == last;
      DecodeEncode(args[n - 1], widths[n - 1]);
    }
  }

  /** Encoding the operands read from a buffer gives back the buffer's operand bytes. */
  lemma {:induction false} EncodeReadOperands(widths: seq<nat>, ins: seq<byte>)
    requires Sum(widths) <= |ins|
    ensures EncodeOperands(widths, ReadOperands(widths, ins)) == ins[..Sum(widths)]
  {
    if widths != [] {
      var n := |widths|;
      var front := widths[..n - 1];
      var ops := ReadOperands(widths, ins);
      assert ops[..n - 1] == ReadOperands(front, ins);
      EncodeReadOperands(front, ins);
      var chunk := ins[Sum(front)..Sum(widths)];
      EncodeDecode(chunk);
      assert ins[..Sum(widths)] == ins[..Sum(front)] + chunk;
    }
  }

  /** Every operand read from a buffer fits its width. */
  lemma {:induction false} ReadOperandsBounded(widths: seq<nat>, ins: seq<byte>)
    requires Sum(widths) <= |ins|
    ensures forall i :: 0 <= i < |widths| ==> ReadOperands(widths, ins)[i] < Pow256(widths[i])
  {
    if widths != [] {
      var n := |widths|;
      ReadOperandsBounded(widths[..n - 1], ins);
    }
  }

  /** Only the first Sum(widths) bytes matter to ReadOperands. */
  lemma {:induction false} ReadOperandsPrefix(widths: seq<nat>, a: seq<byte>, b: seq<byte>)
    requires Sum(widths) <= |a| && Sum(widths) <= |b|
    requires a[..Sum(widths)] == b[..Sum(widths)]
    ensures ReadOperands(widths, a) == ReadOperands(widths, b)
  {
    if widths != [] {
      var n := |widths|;
      var front := widths[..n - 1];
      assert a[..Sum(front)] == b[..Sum(front)] by {
        assert a[..Sum(front)] == a[..Sum(widths)][..Sum(front)];
        assert b[..Sum(front)] == b[..Sum(widths)][..Sum(front)];
      }
      ReadOperandsPrefix(front, a, b);
      assert a[Sum(front)..Sum(widths)] == a[..Sum(widths)][Sum(front)..];
      assert b[Sum(front)..Sum(widths)] == b[..Sum(widths)][Sum(front)..];
    }
  }

  /** The operands `ops` with operand `slot` replaced by `v`. */
  function SetOperand(ops: seq<int>, slot: nat, v: int): (r: seq<int>)
    requires slot < |ops|
    ensures |r| == |ops| && r[slot] == v
    ensures forall i :: 0 <= i < |ops| && i != slot ==> r[i] == ops[i]
  {
    ops[slot := v]
  }

  /** Round trip of one instruction: re-encoding the operands read from a
      well-formed instruction after replacing operand `slot` changes only that
      operand, which then reads back as the new value modulo its range. */
  lemma ReplaceOperand(widths: seq<nat>, ins: seq<byte>, slot: nat, v: int)
    requires Sum(widths) <= |ins| && slot < |widths|
    ensures
      var enc := EncodeOperands(widths, SetOperand(ReadOperands(widths, ins), slot, v));
      && |enc| == Sum(widths)
      && ReadOperands(widths, enc) == SetOperand(ReadOperands(widths, ins), slot, Truncate(v, widths[slot]))
  {
    var ops := ReadOperands(widths, ins);
    var args := SetOperand(ops, slot, v);
    var enc := EncodeOperands(widths, args);
    var r := ReadOperands(widths, enc);
    assert forall i :: 0 <= i < |widths| ==> r[i] == Truncate(args[i], widths[i]) by {
      ReadEncodeOperands(widths, args, []);
      assert enc + [] == enc;
    }
    ReadOperandsBounded(widths, ins);
    var want := SetOperand(ops, slot, Truncate(v, widths[slot]));
    forall i | 0 <= i < |widths| ensures r[i] == want[i] {
      if i != slot {
        assert args[i] == ops[i] && ops[i] < Pow256(widths[i]);
        DivModUnique(ops[i], Pow256(widths[i]), 0, ops[i]);
      }
    }
    assert r == want;
  }
}
