/** The first pass of bytecodePatcher (saveJumpPos) as a function of the
    instructions: what the patch policy sees of each instruction, and the
    jump operands recorded before anything is inserted. */
module Scan {
  import opened Ugo
  import opened Decoder
  import opened Relocation

  /** What a patch policy sees of the instruction under the iterator: its
      position, opcode and decoded operands. */
  datatype Cursor = Cursor(pos: nat, opcode: byte, operands: seq<nat>)

  /** The instruction at `p` fits in the buffer. */
  predicate Fits(isa: Isa, insts: seq<byte>, p: nat) {
    p < |insts| && insts[p] < |isa.operands| && NextPos(isa, insts, p) <= |insts|
  }

  function CursorAt(isa: Isa, insts: seq<byte>, p: nat): (c: Cursor)
    requires Fits(isa, insts, p)
    ensures c.pos == p && c.opcode == insts[p] && |c.operands| == |isa.operands[insts[p]]|
    ensures forall i :: 0 <= i < |c.operands| ==> c.operands[i] < Pow256(isa.operands[insts[p]][i])
  {
    var widths := isa.operands[insts[p]];
    var ins := insts[p + 1..NextPos(isa, insts, p)];
    ReadOperandsBounded(widths, ins);
    Cursor(p, insts[p], ReadOperands(widths, ins))
  }

  /** The records saveJumpPos makes for the instruction at `p`: operand 0 of
      JUMPFALSY, JUMP, ANDJUMP and ORJUMP, operands 0 and 1 of SETUPTRY. */
  function RecordsAt(isa: Isa, insts: seq<byte>, p: nat): seq<PosJump>
    requires isa.Valid() && Fits(isa, insts, p)
  {
    RecordsOf(isa, CursorAt(isa, insts, p))
  }

  /** The records of the instruction a cursor shows. */
  function RecordsOf(isa: Isa, c: Cursor): seq<PosJump>
    requires isa.Valid() && c.opcode < |isa.operands| && |c.operands| == |isa.operands[c.opcode]|
  {
    if isa.IsSingleJump(c.opcode) then
      [PosJump(c.pos, c.operands[0], c.opcode, 0, false)]
    else if c.opcode == isa.opSetupTry then
      [PosJump(c.pos, c.operands[0], c.opcode, 0, false), PosJump(c.pos, c.operands[1], c.opcode, 1, false)]
    else []
  }

  /** The records of all instructions decoded from `p` on, in order. */
  function RecordsFrom(isa: Isa, insts: seq<byte>, p: nat): seq<PosJump>
    requires isa.Valid() && WellFormed(isa, insts, p)
    decreases |insts| - p
  {
    if p >= |insts| || insts[p] >= |isa.operands| then []
    else RecordsAt(isa, insts, p) + RecordsFrom(isa, insts, NextPos(isa, insts, p))
  }

  lemma StartAtLeast(isa: Isa, insts: seq<byte>, p: nat, s: nat)
    requires IsStart(isa, insts, p, s)
    ensures s >= p
  {
  }

  /** Distinct instruction starts are at least one instruction apart. */
  lemma {:induction false} StartsApart(isa: Isa, insts: seq<byte>, p: nat, s: nat, t: nat)
    requires WellFormed(isa, insts, p) && IsStart(isa, insts, p, s) && IsStart(isa, insts, p, t)
    requires s < t
    ensures Fits(isa, insts, s) && NextPos(isa, insts, s) <= t
    decreases |insts| - p
  {
    StartFits(isa, insts, p, s);
    if s == p {
      StartAtLeast(isa, insts, NextPos(isa, insts, p), t);
    } else {
      StartsApart(isa, insts, NextPos(isa, insts, p), s, t);
    }
  }

  /** A record of RecordsFrom(p): a jump operand, not yet moved, of the
      instruction that starts at its position. */
  predicate Recorded(isa: Isa, insts: seq<byte>, p: nat, r: PosJump)
    requires isa.Valid() && WellFormed(isa, insts, p)
  {
    && r.pos >= 0 && IsStart(isa, insts, p, r.pos) && Fits(isa, insts, r.pos)
    && (var c := CursorAt(isa, insts, r.pos);
        && r.opcode == c.opcode
        && (isa.IsSingleJump(r.opcode) || r.opcode == isa.opSetupTry)
        && r.operand < |c.operands|
        && r.jump == c.operands[r.operand])
    && !r.updated
  }

  /** Every record describes a jump operand of the instruction it names. */
  lemma {:induction false} RecordsFromRecorded(isa: Isa, insts: seq<byte>, p: nat)
    requires isa.Valid() && WellFormed(isa, insts, p)
    ensures forall r :: r in RecordsFrom(isa, insts, p) ==> Recorded(isa, insts, p, r)
    decreases |insts| - p
  {
    if p < |insts| && insts[p] < |isa.operands| {
      var next := NextPos(isa, insts, p);
      RecordsFromRecorded(isa, insts, next);
      forall r | r in RecordsFrom(isa, insts, p)
        ensures Recorded(isa, insts, p, r)
      {
        if r in RecordsAt(isa, insts, p) {
          StartFits(isa, insts, p, p);
        } else {
          assert r in RecordsFrom(isa, insts, next);
          assert Recorded(isa, insts, next, r);
          StartAtLeast(isa, insts, next, r.pos);
        }
      }
    }
  }

  predicate InOrder(rs: seq<PosJump>) {
    forall i, j :: 0 <= i < j < |rs| ==>
      rs[i].pos < rs[j].pos || (rs[i].pos == rs[j].pos && rs[i].operand < rs[j].operand)
  }

  /** Records come in instruction order, and the two of one SETUPTRY in
      operand order. */
  lemma {:induction false} RecordsFromOrdered(isa: Isa, insts: seq<byte>, p: nat)
    requires isa.Valid() && WellFormed(isa, insts, p)
    ensures InOrder(RecordsFrom(isa, insts, p))
    decreases |insts| - p
  {
    if p < |insts| && insts[p] < |isa.operands| {
      var next := NextPos(isa, insts, p);
      var here, rest := RecordsAt(isa, insts, p), RecordsFrom(isa, insts, next);
      RecordsFromOrdered(isa, insts, next);
      RecordsFromRecorded(isa, insts, next);
      var rs := here + rest;
      assert forall k :: 0 <= k < |here| ==> here[k].pos == p && here[k].operand == k;
      forall i, j | 0 <= i < j < |rs|
        ensures rs[i].pos < rs[j].pos || (rs[i].pos == rs[j].pos && rs[i].operand < rs[j].operand)
      {
        if i < |here| && j >= |here| {
          var r := rest[j - |here|];
          assert r in rest && rs[j] == r && rs[i] == here[i];
          assert Recorded(isa, insts, next, r);
          StartAtLeast(isa, insts, next, r.pos);
        } else if i >= |here| {
          assert rs[i] == rest[i - |here|] && rs[j] == rest[j - |here|];
        } else {
          assert rs[i] == here[i] && rs[j] == here[j];
        }
      }
    }
  }

  /** Every jump operand is recorded: each instruction start with a jump
      opcode has a record for each of its target operands. */
  lemma {:induction false} RecordsFromComplete(isa: Isa, insts: seq<byte>, p: nat, s: nat, slot: nat)
    requires isa.Valid() && WellFormed(isa, insts, p) && IsStart(isa, insts, p, s)
    requires s < |insts|
    requires (isa.IsSingleJump(insts[s]) && slot == 0) || (insts[s] == isa.opSetupTry && slot < 2)
    ensures exists r :: r in RecordsFrom(isa, insts, p) && r.pos == s && r.operand == slot
    decreases |insts| - p
  {
    var next := NextPos(isa, insts, p);
    if s == p {
      var here := RecordsAt(isa, insts, p);
      assert here[slot] in RecordsFrom(isa, insts, p);
    } else {
      RecordsFromComplete(isa, insts, next, s, slot);
      var r :| r in RecordsFrom(isa, insts, next) && r.pos == s && r.operand == slot;
      assert r in RecordsFrom(isa, insts, p);
    }
  }
}
