/** The third pass of bytecodePatcher (updateJumps) as a function of the
    records and the generated bytes: every moved record rewrites its operand
    in place, after checking that its opcode is still where it expects it. */
module Update {
  import opened Ugo
  import opened Relocation

  /** The record names a valid operand slot of an instruction that fits in a
      buffer of `n` bytes; updateJumps would index out of range otherwise. */
  predicate RecordFits(isa: Isa, r: PosJump, n: int) {
    && 0 <= r.pos && r.opcode < |isa.operands|
    && r.operand < |isa.operands[r.opcode]|
    && r.pos + 1 + isa.Width(r.opcode) <= n
  }

  /** One past the last operand byte of the record's instruction. */
  function End(isa: Isa, r: PosJump): int
    requires r.opcode < |isa.operands|
  {
    r.pos + 1 + isa.Width(r.opcode)
  }

  /** The operands of the record's instruction as they stand in `buf`. */
  function OperandsIn(isa: Isa, buf: seq<byte>, r: PosJump): (ops: seq<nat>)
    requires RecordFits(isa, r, |buf|)
    ensures |ops| == |isa.operands[r.opcode]|
  {
    ReadOperands(isa.operands[r.opcode], buf[r.pos + 1..End(isa, r)])
  }

  /** The buffer after one update, and the error updateJumps stopped with. */
  datatype Updated = Updated(buf: seq<byte>, err: Option<Error>)

  /** One iteration of updateJumps for a moved record. */
  function UpdateOne(isa: Isa, r: PosJump, buf: seq<byte>): (u: Updated)
    requires RecordFits(isa, r, |buf|)
    ensures |u.buf| == |buf|
    ensures u.err.None? <==> buf[r.pos] == r.opcode
    ensures u.err.Some? ==> u.buf == buf
  {
    if buf[r.pos] != r.opcode then Updated(buf, Some(OpcodesMismatch(r.opcode, buf[r.pos])))
    else
      var ops := SetOperand(OperandsIn(isa, buf, r), r.operand, r.jump);
      match MakeInstruction(isa, r.opcode, ops)
      case Err(e) => Updated(buf, Some(e))
      case Ok(inst) => Updated(buf[..r.pos] + inst + buf[End(isa, r)..], None)
  }

  /** updateJumps over `rs` in order: records never moved are skipped, and
      the first error stops the pass. */
  function UpdateFrom(isa: Isa, rs: seq<PosJump>, buf: seq<byte>): (u: Updated)
    requires forall r :: r in rs && r.updated ==> RecordFits(isa, r, |buf|)
    ensures |u.buf| == |buf|
    decreases |rs|
  {
    if rs == [] then Updated(buf, None)
    else
      assert forall r :: r in rs[1..] ==> r in rs;
      if !rs[0].updated then UpdateFrom(isa, rs[1..], buf)
      else
        var u := UpdateOne(isa, rs[0], buf);
        if u.err.Some? then u else UpdateFrom(isa, rs[1..], u.buf)
  }

  /** The record's opcode is in place in `buf`. */
  predicate Placed(isa: Isa, buf: seq<byte>, r: PosJump) {
    RecordFits(isa, r, |buf|) && buf[r.pos] == r.opcode
  }

  /** The record's operand holds its target, truncated to the operand width. */
  predicate Holds(isa: Isa, buf: seq<byte>, r: PosJump) {
    && Placed(isa, buf, r)
    && OperandsIn(isa, buf, r)[r.operand] == Truncate(r.jump, isa.operands[r.opcode][r.operand])
  }

  /** Two records that do not interfere: other slots of the same
      instruction, or instructions that do not overlap. */
  predicate Compatible(isa: Isa, a: PosJump, b: PosJump) {
    && a.opcode < |isa.operands| && b.opcode < |isa.operands|
    && ((a.pos == b.pos && a.opcode == b.opcode && a.operand != b.operand)
        || End(isa, a) <= b.pos || End(isa, b) <= a.pos)
  }

  predicate PairwiseCompatible(isa: Isa, rs: seq<PosJump>) {
    forall i, j :: 0 <= i < j < |rs| ==> Compatible(isa, rs[i], rs[j])
  }

  /** An update whose opcode is in place succeeds, rewrites only the
      operand bytes of its instruction, and leaves its target there. */
  lemma UpdateOneOk(isa: Isa, r: PosJump, buf: seq<byte>)
    requires Placed(isa, buf, r)
    ensures var u := UpdateOne(isa, r, buf);
      && u.err.None?
      && Holds(isa, u.buf, r)
      && OperandsIn(isa, u.buf, r) == SetOperand(OperandsIn(isa, buf, r), r.operand, Truncate(r.jump, isa.operands[r.opcode][r.operand]))
      && forall k :: 0 <= k < |buf| && !(r.pos < k < End(isa, r)) ==> u.buf[k] == buf[k]
  {
    var widths := isa.operands[r.opcode];
    var end := End(isa, r);
    var ins := buf[r.pos + 1..end];
    var ops := SetOperand(OperandsIn(isa, buf, r), r.operand, r.jump);
    var inst := [r.opcode] + EncodeOperands(widths, ops);
    var u := UpdateOne(isa, r, buf);
    assert u.buf == buf[..r.pos] + inst + buf[end..];
    assert u.buf[r.pos + 1..end] == EncodeOperands(widths, ops);
    ReplaceOperand(widths, ins, r.operand, r.jump);
  }

  /** An update leaves every compatible record as it found it. */
  lemma UpdateOneKeeps(isa: Isa, r: PosJump, q: PosJump, buf: seq<byte>)
    requires Placed(isa, buf, r) && Placed(isa, buf, q) && Compatible(isa, r, q)
    ensures var u := UpdateOne(isa, r, buf);
      && Placed(isa, u.buf, q)
      && (Holds(isa, buf, q) ==> Holds(isa, u.buf, q))
  {
    var u := UpdateOne(isa, r, buf);
    UpdateOneOk(isa, r, buf);
    if r.pos == q.pos {
      assert OperandsIn(isa, u.buf, q) == OperandsIn(isa, u.buf, r);
      assert OperandsIn(isa, buf, q) == OperandsIn(isa, buf, r);
    } else {
      assert u.buf[q.pos + 1..End(isa, q)] == buf[q.pos + 1..End(isa, q)];
    }
  }

  /** The records after the first are pairwise compatible, and compatible
      with the first. */
  lemma TailCompatible(isa: Isa, rs: seq<PosJump>)
    requires rs != [] && PairwiseCompatible(isa, rs)
    ensures PairwiseCompatible(isa, rs[1..])
    ensures forall r :: r in rs[1..] ==> r in rs && Compatible(isa, rs[0], r) && Compatible(isa, r, rs[0])
  {
    var tail := rs[1..];
    assert forall i, j :: 0 <= i < j < |tail| ==> tail[i] == rs[i + 1] && tail[j] == rs[j + 1];
    forall r | r in tail ensures r in rs && Compatible(isa, rs[0], r) && Compatible(isa, r, rs[0]) {
      var j :| 0 <= j < |tail| && tail[j] == r;
      assert Compatible(isa, rs[0], rs[j + 1]);
    }
  }

  /** The update of the first record keeps the others in place, and keeps
      the targets the others already hold. */
  lemma HeadKeeps(isa: Isa, r0: PosJump, tail: seq<PosJump>, buf: seq<byte>)
    requires Placed(isa, buf, r0)
    requires forall r :: r in tail ==> Placed(isa, buf, r) && Compatible(isa, r0, r)
    ensures var next := UpdateOne(isa, r0, buf).buf;
      forall r :: r in tail ==> Placed(isa, next, r) && (Holds(isa, buf, r) ==> Holds(isa, next, r))
  {
    forall r | r in tail
      ensures Placed(isa, UpdateOne(isa, r0, buf).buf, r)
      ensures Holds(isa, buf, r) ==> Holds(isa, UpdateOne(isa, r0, buf).buf, r)
    {
      UpdateOneKeeps(isa, r0, r, buf);
    }
  }

  /** A run of updates leaves a record compatible with all of them as it
      found it. */
  lemma {:induction false} UpdateFromKeeps(isa: Isa, rs: seq<PosJump>, buf: seq<byte>, q: PosJump)
    requires forall r :: r in rs ==> RecordFits(isa, r, |buf|) && buf[r.pos] == r.opcode
    requires PairwiseCompatible(isa, rs)
    requires forall r :: r in rs ==> Compatible(isa, r, q)
    requires Holds(isa, buf, q)
    ensures UpdateFrom(isa, rs, buf).err.None? ==> Holds(isa, UpdateFrom(isa, rs, buf).buf, q)
    decreases |rs|
  {
    if rs != [] {
      TailCompatible(isa, rs);
      if !rs[0].updated {
        UpdateFromKeeps(isa, rs[1..], buf, q);
      } else {
        UpdateOneKeeps(isa, rs[0], q, buf);
        HeadKeeps(isa, rs[0], rs[1..], buf);
        UpdateFromKeeps(isa, rs[1..], UpdateOne(isa, rs[0], buf).buf, q);
      }
    }
  }

  /** updateJumps never reports an opcode mismatch when every record's
      opcode is in place and the records do not interfere; afterwards every
      record's operand holds its target. */
  lemma {:induction false} UpdateFromOk(isa: Isa, rs: seq<PosJump>, buf: seq<byte>)
    requires forall r :: r in rs ==> RecordFits(isa, r, |buf|) && buf[r.pos] == r.opcode
    requires PairwiseCompatible(isa, rs)
    requires forall r :: r in rs && !r.updated ==> Holds(isa, buf, r)
    ensures UpdateFrom(isa, rs, buf).err.None?
    ensures forall r :: r in rs ==> Holds(isa, UpdateFrom(isa, rs, buf).buf, r)
    decreases |rs|
  {
    if rs != [] {
      var tail, r0 := rs[1..], rs[0];
      TailCompatible(isa, rs);
      var next := if r0.updated then UpdateOne(isa, r0, buf).buf else buf;
      if r0.updated {
        UpdateOneOk(isa, r0, buf);
        HeadKeeps(isa, r0, tail, buf);
      }
      UpdateFromOk(isa, tail, next);
      UpdateFromKeeps(isa, tail, next, r0);
    }
  }

  /** Records that were never moved change nothing. */
  lemma {:induction false} UpdateFromSkipped(isa: Isa, rs: seq<PosJump>, buf: seq<byte>)
    requires forall r :: r in rs ==> !r.updated
    ensures UpdateFrom(isa, rs, buf) == Updated(buf, None)
    decreases |rs|
  {
    if rs != [] {
      assert forall r :: r in rs[1..] ==> r in rs;
      UpdateFromSkipped(isa, rs[1..], buf);
    }
  }

  /** Bytes outside the operand bytes of every moved record are left alone. */
  lemma {:induction false} UpdateFromFrame(isa: Isa, rs: seq<PosJump>, buf: seq<byte>, k: int)
    requires forall r :: r in rs ==> RecordFits(isa, r, |buf|) && buf[r.pos] == r.opcode
    requires PairwiseCompatible(isa, rs)
    requires 0 <= k < |buf|
    requires forall r :: r in rs && r.updated && r.opcode < |isa.operands| ==> !(r.pos < k < End(isa, r))
    ensures UpdateFrom(isa, rs, buf).buf[k] == buf[k]
    decreases |rs|
  {
    if rs != [] {
      TailCompatible(isa, rs);
      if !rs[0].updated {
        UpdateFromFrame(isa, rs[1..], buf, k);
      } else {
        UpdateOneOk(isa, rs[0], buf);
        HeadKeeps(isa, rs[0], rs[1..], buf);
        UpdateFromFrame(isa, rs[1..], UpdateOne(isa, rs[0], buf).buf, k);
      }
    }
  }

  /** A window of bytes that no updated record's instruction overlaps is
      left alone. */
  lemma UpdateFromWindow(isa: Isa, rs: seq<PosJump>, buf: seq<byte>, o: int, n: int)
    requires forall r :: r in rs ==> RecordFits(isa, r, |buf|) && buf[r.pos] == r.opcode
    requires PairwiseCompatible(isa, rs)
    requires 0 <= o && 0 <= n && o + n <= |buf|
    requires forall r :: r in rs && r.updated && r.opcode < |isa.operands| ==> End(isa, r) <= o || o + n <= r.pos
    ensures UpdateFrom(isa, rs, buf).buf[o..o + n] == buf[o..o + n]
  {
    var b := UpdateFrom(isa, rs, buf).buf;
    forall k | o <= k < o + n ensures b[k] == buf[k] {
      UpdateFromFrame(isa, rs, buf, k);
    }
  }
}
