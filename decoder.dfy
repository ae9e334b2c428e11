/** The lazy instruction decoder of patcher/patcher.go: the operand-width
    table (getOpWidths) and instsIterator. */
module Decoder {
  import opened Ugo

  /** getOpWidths: the number of operand bytes of every opcode. */
  method GetOpWidths(operands: seq<seq<nat>>) returns (opWidths: seq<nat>)
    ensures |opWidths| == |operands|
    ensures forall op :: 0 <= op < |operands| ==> opWidths[op] == Sum(operands[op])
  {
    opWidths := seq(|operands|, _ => 0);
    for op := 0 to |operands|
      invariant |opWidths| == |operands|
      invariant forall o :: 0 <= o < op ==> opWidths[o] == Sum(operands[o])
      invariant forall o :: op <= o < |operands| ==> opWidths[o] == 0
    {
      var ws := operands[op];
      for j := 0 to |ws|
        invariant |opWidths| == |operands|
        invariant forall o :: 0 <= o < op ==> opWidths[o] == Sum(operands[o])
        invariant forall o :: op < o < |operands| ==> opWidths[o] == 0
        invariant opWidths[op] == Sum(ws[..j])
      {
        assert ws[..j + 1][..j] == ws[..j];
        opWidths := opWidths[op := opWidths[op] + ws[j]];
      }
      assert ws[..|ws|] == ws;
    }
  }

  /** The start of the instruction after the one at `p`. */
  function NextPos(isa: Isa, insts: seq<byte>, p: nat): nat
    requires p < |insts| && insts[p] < |isa.operands|
  {
    p + 1 + isa.Width(insts[p])
  }

  /** Decoding from `p` never meets an instruction whose operands run past
      the end of the buffer (the source reads them without a check). */
  predicate WellFormed(isa: Isa, insts: seq<byte>, p: nat)
    decreases |insts| - p
  {
    || p >= |insts|
    || insts[p] >= |isa.operands|
    || (NextPos(isa, insts, p) <= |insts| && WellFormed(isa, insts, NextPos(isa, insts, p)))
  }

  /** The error decoding from `p` ends with, if it reaches an opcode with no
      entry in the table before the end of the buffer. */
  function ScanError(isa: Isa, insts: seq<byte>, p: nat): Option<Error>
    decreases |insts| - p
  {
    if p >= |insts| then None
    else if insts[p] >= |isa.operands| then Some(InvalidOpcode(insts[p], p))
    else ScanError(isa, insts, NextPos(isa, insts, p))
  }

  /** `s` is the start of an instruction met when decoding from `p`. */
  predicate IsStart(isa: Isa, insts: seq<byte>, p: nat, s: nat)
    decreases |insts| - p
  {
    && p < |insts| && insts[p] < |isa.operands|
    && (s == p || (s > p && IsStart(isa, insts, NextPos(isa, insts, p), s)))
  }

  /** The instruction at a start of a well-formed buffer fits in the buffer. */
  lemma {:induction false} StartFits(isa: Isa, insts: seq<byte>, p: nat, s: nat)
    requires WellFormed(isa, insts, p) && IsStart(isa, insts, p, s)
    ensures s < |insts| && insts[s] < |isa.operands| && NextPos(isa, insts, s) <= |insts|
    decreases |insts| - p
  {
    if s != p {
      StartFits(isa, insts, NextPos(isa, insts, p), s);
    }
  }

  /** The next start after a start is a start too, when it holds an opcode. */
  lemma {:induction false} StartNext(isa: Isa, insts: seq<byte>, p: nat, s: nat)
    requires IsStart(isa, insts, p, s) && s < |insts| && insts[s] < |isa.operands|
    requires NextPos(isa, insts, s) < |insts| && insts[NextPos(isa, insts, s)] < |isa.operands|
    ensures IsStart(isa, insts, p, NextPos(isa, insts, s))
    decreases |insts| - p
  {
    if s != p {
      StartNext(isa, insts, NextPos(isa, insts, p), s);
    }
  }

  /** Decoding from a start reached from `p` goes on as decoding from `p`
      does. */
  lemma {:induction false} StartScan(isa: Isa, insts: seq<byte>, p: nat, s: nat)
    requires WellFormed(isa, insts, p) && IsStart(isa, insts, p, s)
    ensures WellFormed(isa, insts, s) && ScanError(isa, insts, s) == ScanError(isa, insts, p)
    decreases |insts| - p
  {
    if s != p {
      StartScan(isa, insts, NextPos(isa, insts, p), s);
    }
  }

  /** Decoding from `p` runs to the end of the buffer without an error. */
  predicate Decodes(isa: Isa, insts: seq<byte>, p: nat) {
    WellFormed(isa, insts, p) && ScanError(isa, insts, p).None?
  }

  /** One decodable instruction in front of a decodable rest. */
  lemma DecodesStep(isa: Isa, buf: seq<byte>, p: nat)
    requires p < |buf| && buf[p] < |isa.operands| && NextPos(isa, buf, p) <= |buf|
    requires Decodes(isa, buf, NextPos(isa, buf, p))
    ensures Decodes(isa, buf, p)
  {
  }

  /** Bytes that decode on their own decode in place inside a buffer, when
      what follows them does. */
  lemma {:induction false} DecodesWindow(isa: Isa, buf: seq<byte>, w: seq<byte>, q: nat, j: nat)
    requires q + |w| <= |buf| && buf[q..q + |w|] == w
    requires j <= |w| && Decodes(isa, w, j)
    requires Decodes(isa, buf, q + |w|)
    ensures Decodes(isa, buf, q + j)
    decreases |w| - j
  {
    if j < |w| {
      assert buf[q + j] == w[j];
      var nj := NextPos(isa, w, j);
      assert NextPos(isa, buf, q + j) == q + nj;
      DecodesWindow(isa, buf, w, q, nj);
    }
  }

  /** instsIterator: decodes one instruction per Next, reading operands only
      when asked. */
  class InstsIterator {
    const isa: Isa
    const opWidths: seq<nat>
    /** The start of the next instruction. */
    var pos: int
    var insts: seq<byte>
    var opcode: byte
    /** Operand bytes of the current instruction. */
    var offset: nat
    var err: Option<Error>

    ghost predicate Valid()
      reads this
    {
      && isa.Valid()
      && |opWidths| == |isa.operands|
      && (forall op :: 0 <= op < |opWidths| ==> opWidths[op] == isa.Width(op))
      && pos >= 0
    }

    /** The iterator has just decoded a whole instruction that starts at Pos(). */
    ghost predicate OnInstruction()
      reads this
    {
      && opcode < |isa.operands|
      && offset == isa.Width(opcode)
      && offset + 1 <= pos <= |insts|
      && insts[pos - offset - 1] == opcode
    }

    constructor (isa: Isa, opWidths: seq<nat>)
      requires isa.Valid() && |opWidths| == |isa.operands|
      requires forall op :: 0 <= op < |opWidths| ==> opWidths[op] == isa.Width(op)
      ensures Valid() && this.isa == isa && this.opWidths == opWidths
      ensures pos == 0 && insts == [] && err == None
    {
      this.isa := isa;
      this.opWidths := opWidths;
      pos, insts, opcode, offset, err := 0, [], 0, 0, None;
    }

    /** Decodes the next instruction. Returns false at the end of the buffer
        and whenever an error is set; an opcode with no entry in the table sets
        the error. */
    method Next() returns (ok: bool)
      requires Valid()
      modifies this
      ensures Valid() && insts == old(insts)
      ensures ok <==> old(pos) < |insts| && old(err) == None && insts[old(pos)] < |isa.operands|
      ensures ok ==> && opcode == insts[old(pos)] && offset == isa.Width(opcode)
                     && pos == old(pos) + 1 + offset && err == None
                     && Pos() == old(pos) && (pos <= |insts| ==> OnInstruction())
      ensures !ok && old(pos) < |insts| && old(err) == None ==>
                && err == Some(InvalidOpcode(insts[old(pos)], old(pos)))
                && pos == old(pos) && opcode == insts[old(pos)] && offset == old(offset)
      ensures !ok && !(old(pos) < |insts| && old(err) == None) ==>
                pos == old(pos) && err == old(err) && opcode == old(opcode) && offset == old(offset)
    {
      if pos >= |insts| || err.Some? {
        return false;
      }
      opcode := insts[pos];
      if opcode >= |opWidths| {
        err := Some(InvalidOpcode(opcode, pos));
        return false;
      }
      offset := opWidths[opcode];
      pos := pos + offset + 1;
      return true;
    }

    function Opcode(): byte
      reads this
    {
      opcode
    }

    /** The operands of the current instruction, decoded on demand. */
    function Operands(): (r: seq<nat>)
      reads this
      requires Valid() && OnInstruction()
      ensures |r| == |isa.operands[opcode]|
    {
      ReadOperands(isa.operands[opcode], insts[pos - offset..pos])
    }

    function Offset(): nat
      reads this
    {
      offset
    }

    /** The start of the instruction just decoded. */
    function Pos(): int
      reads this
    {
      pos - offset - 1
    }

    function Error(): Option<Error>
      reads this
    {
      err
    }

    /** Restarts decoding at the beginning of `insts` and clears the error. */
    method Reset(insts: seq<byte>)
      requires Valid()
      modifies this
      ensures Valid() && pos == 0 && this.insts == insts && err == None
      ensures opcode == old(opcode) && offset == old(offset)
    {
      this.pos := 0;
      this.insts := insts;
      this.err := None;
    }
  }
}
