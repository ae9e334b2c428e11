/** The second pass of bytecodePatcher (generate) as a function of the
    instructions and the patch policy: the new instruction stream and the
    insertions made, in input coordinates. */
module Generation {
  import opened Ugo
  import opened Decoder
  import opened Relocation
  import opened Scan

  /** Policy answers: keep the instruction, or insert bytes before it. */
  const PatchNext: byte := 0
  const PatchInsertBefore: byte := 1

  /** patchFunc: the policy consulted once per instruction. */
  type PatchFunc = Cursor -> (byte, seq<byte>)

  /** The bytes generated, the insertions made before input positions, and
      the error generation stopped with. */
  datatype GenOut = GenOut(out: seq<byte>, plan: seq<Insertion>, err: Option<Error>)

  /** generate, from input position `p` on. */
  function GenFrom(isa: Isa, f: PatchFunc, insts: seq<byte>, p: nat): GenOut
    requires WellFormed(isa, insts, p)
    decreases |insts| - p
  {
    if p >= |insts| then GenOut([], [], None)
    else if insts[p] >= |isa.operands| then GenOut([], [], Some(InvalidOpcode(insts[p], p)))
    else
      var next := NextPos(isa, insts, p);
      var (op, blob) := f(CursorAt(isa, insts, p));
      var inst := insts[p..next];
      if op == PatchNext then
        var rest := GenFrom(isa, f, insts, next);
        GenOut(inst + rest.out, rest.plan, rest.err)
      else if op == PatchInsertBefore then
        var rest := GenFrom(isa, f, insts, next);
        GenOut(blob + inst + rest.out, [Insertion(p, |blob|)] + rest.plan, rest.err)
      else GenOut([], [], Some(UnknownPatchOp(op)))
  }

  /** Generation fails with the scan error when there is one, and otherwise
      only on a policy answer it does not know. */
  lemma {:induction false} GenError(isa: Isa, f: PatchFunc, insts: seq<byte>, p: nat)
    requires WellFormed(isa, insts, p)
    ensures var g := GenFrom(isa, f, insts, p);
      && (ScanError(isa, insts, p).Some? && g.err.None? ==> false)
      && (g.err.Some? && !g.err.value.UnknownPatchOp? ==> g.err == ScanError(isa, insts, p))
    decreases |insts| - p
  {
    if p < |insts| && insts[p] < |isa.operands| {
      GenError(isa, f, insts, NextPos(isa, insts, p));
    }
  }

  /** Insertions are planned in increasing order, at or after the start. */
  lemma {:induction false} GenPlanOrdered(isa: Isa, f: PatchFunc, insts: seq<byte>, p: nat)
    requires WellFormed(isa, insts, p)
    ensures var plan := GenFrom(isa, f, insts, p).plan;
      && Increasing(plan)
      && (forall i :: 0 <= i < |plan| ==> p <= plan[i].at)
    decreases |insts| - p
  {
    if p < |insts| && insts[p] < |isa.operands| {
      var next := NextPos(isa, insts, p);
      GenPlanOrdered(isa, f, insts, next);
    }
  }

  /** When generation does not fail, an insertion is planned exactly at the
      instructions where the policy answers patchInsertBefore, with the size
      of the bytes it returned. */
  lemma {:induction false} GenPlanExact(isa: Isa, f: PatchFunc, insts: seq<byte>, p: nat, ins: Insertion)
    requires WellFormed(isa, insts, p) && GenFrom(isa, f, insts, p).err.None?
    ensures ins in GenFrom(isa, f, insts, p).plan <==>
      && IsStart(isa, insts, p, ins.at) && Fits(isa, insts, ins.at)
      && f(CursorAt(isa, insts, ins.at)).0 == PatchInsertBefore
      && ins.size == |f(CursorAt(isa, insts, ins.at)).1|
    decreases |insts| - p
  {
    if p < |insts| {
      var next := NextPos(isa, insts, p);
      var rest := GenFrom(isa, f, insts, next);
      GenPlanExact(isa, f, insts, next, ins);
      GenPlanOrdered(isa, f, insts, next);
      if ins.at == p {
        assert ins !in rest.plan;
        assert !IsStart(isa, insts, next, ins.at);
      } else if ins.at > p {
        assert IsStart(isa, insts, p, ins.at) <==> IsStart(isa, insts, next, ins.at);
      }
    }
  }

  /** A policy that never inserts leaves the instructions as they are. */
  lemma {:induction false} GenIdentity(isa: Isa, f: PatchFunc, insts: seq<byte>, p: nat)
    requires WellFormed(isa, insts, p) && p <= |insts|
    requires GenFrom(isa, f, insts, p).err.None? && GenFrom(isa, f, insts, p).plan == []
    ensures GenFrom(isa, f, insts, p).out == insts[p..]
    decreases |insts| - p
  {
    if p < |insts| {
      var next := NextPos(isa, insts, p);
      GenIdentity(isa, f, insts, next);
      assert insts[p..] == insts[p..next] + insts[next..];
    }
  }

  /** One step of generation: the bytes inserted before the instruction at
      `p`, that instruction, then the rest. */
  lemma GenStep(isa: Isa, f: PatchFunc, insts: seq<byte>, p: nat) returns (pre: seq<byte>)
    requires WellFormed(isa, insts, p) && p < |insts| && insts[p] < |isa.operands|
    requires GenFrom(isa, f, insts, p).err.None?
    ensures var next := NextPos(isa, insts, p);
      var g, rest := GenFrom(isa, f, insts, p), GenFrom(isa, f, insts, next);
      && next <= |insts| && WellFormed(isa, insts, next)
      && rest.err.None?
      && g.out == pre + insts[p..next] + rest.out
      && Total(g.plan) == |pre| + Total(rest.plan)
      && forall x :: Displacement(x, g.plan) == (if p <= x then |pre| else 0) + Displacement(x, rest.plan)
  {
    var next := NextPos(isa, insts, p);
    var g, rest := GenFrom(isa, f, insts, p), GenFrom(isa, f, insts, next);
    var op := f(CursorAt(isa, insts, p)).0;
    var blob := f(CursorAt(isa, insts, p)).1;
    if op == PatchNext {
      pre := [];
    } else {
      pre := blob;
      var ins := [Insertion(p, |blob|)];
      assert g.plan == ins + rest.plan;
      assert ins[..0] == [];
      DisplacementConcat(0, ins, rest.plan);
      forall x
        ensures Displacement(x, g.plan) == (if p <= x then |pre| else 0) + Displacement(x, rest.plan)
      {
        DisplacementConcat(x, ins, rest.plan);
      }
    }
  }

  /** A window of the rest of the output, seen from one instruction
      earlier. */
  lemma ShiftedWindow(out: seq<byte>, plan: seq<Insertion>, pre: seq<byte>, inst: seq<byte>,
                      rest: seq<byte>, restPlan: seq<Insertion>, p: nat, s: nat, w: seq<byte>)
    requires out == pre + inst + rest && p + |inst| <= s
    requires Displacement(s, plan) == |pre| + Displacement(s, restPlan)
    requires var o := s - (p + |inst|) + Displacement(s, restPlan);
      o + |w| <= |rest| && rest[o..o + |w|] == w
    ensures var o := s - p + Displacement(s, plan);
      o + |w| <= |out| && out[o..o + |w|] == w
  {
    var o := s - (p + |inst|) + Displacement(s, restPlan);
    SliceOfConcat(pre + inst, rest, o, |w|);
  }

  lemma SliceOfConcat<T>(a: seq<T>, b: seq<T>, o: nat, n: nat)
    requires o + n <= |b|
    ensures (a + b)[|a| + o..|a| + o + n] == b[o..o + n]
  {
  }

  /** The output is the input plus the inserted bytes. */
  lemma {:induction false} GenLength(isa: Isa, f: PatchFunc, insts: seq<byte>, p: nat)
    requires WellFormed(isa, insts, p) && p <= |insts|
    requires GenFrom(isa, f, insts, p).err.None?
    ensures var g := GenFrom(isa, f, insts, p);
      |g.out| == |insts| - p + Total(g.plan)
    decreases |insts| - p
  {
    if p < |insts| {
      var pre := GenStep(isa, f, insts, p);
      GenLength(isa, f, insts, NextPos(isa, insts, p));
    }
  }

  /** Every instruction of the input reappears, byte for byte, at its
      relocated position in the output (positions relative to `p`). */
  lemma {:induction false} GenLayout(isa: Isa, f: PatchFunc, insts: seq<byte>, p: nat, s: nat)
    requires WellFormed(isa, insts, p) && IsStart(isa, insts, p, s)
    requires GenFrom(isa, f, insts, p).err.None?
    ensures Fits(isa, insts, s)
    ensures var g := GenFrom(isa, f, insts, p);
      var o := s - p + Displacement(s, g.plan);
      var n := NextPos(isa, insts, s) - s;
      && o + n <= |g.out|
      && g.out[o..o + n] == insts[s..s + n]
    decreases |insts| - p
  {
    StartFits(isa, insts, p, s);
    if s == p {
      GenLayoutHere(isa, f, insts, p);
    } else {
      var next := NextPos(isa, insts, p);
      var g := GenFrom(isa, f, insts, p);
      var rest := GenFrom(isa, f, insts, next);
      var pre := GenStep(isa, f, insts, p);
      assert IsStart(isa, insts, next, s);
      GenLayout(isa, f, insts, next, s);
      ShiftedWindow(g.out, g.plan, pre, insts[p..next], rest.out, rest.plan, p, s, insts[s..NextPos(isa, insts, s)]);
    }
  }

  /** The generation from a later start is the tail of the generation from
      `p`: it begins after everything inserted before that start. */
  lemma {:induction false} GenSuffix(isa: Isa, f: PatchFunc, insts: seq<byte>, p: nat, s: nat)
    requires WellFormed(isa, insts, p) && IsStart(isa, insts, p, s)
    requires GenFrom(isa, f, insts, p).err.None?
    ensures WellFormed(isa, insts, s) && GenFrom(isa, f, insts, s).err.None?
    ensures var g := GenFrom(isa, f, insts, p);
      var o := s - p + Displacement(s - 1, g.plan);
      o <= |g.out| && g.out[o..] == GenFrom(isa, f, insts, s).out
    decreases |insts| - p
  {
    if s == p {
      GenSuffixHere(isa, f, insts, p);
    } else {
      var next := NextPos(isa, insts, p);
      var g, rest := GenFrom(isa, f, insts, p), GenFrom(isa, f, insts, next);
      var pre := GenStep(isa, f, insts, p);
      assert IsStart(isa, insts, next, s);
      GenSuffix(isa, f, insts, next, s);
      assert Displacement(s - 1, g.plan) == |pre| + Displacement(s - 1, rest.plan);
      assert next <= s;
      assert |insts[p..next]| == next - p;
      assert g.out == pre + insts[p..next] + rest.out;
      ShiftedSuffix(g.out, g.plan, pre, insts[p..next], rest.out, rest.plan, p, s, GenFrom(isa, f, insts, s).out);
    }
  }

  /** Nothing is inserted before the start of a generation. */
  lemma GenSuffixHere(isa: Isa, f: PatchFunc, insts: seq<byte>, p: nat)
    requires WellFormed(isa, insts, p)
    ensures Displacement(p - 1, GenFrom(isa, f, insts, p).plan) == 0
  {
    GenPlanOrdered(isa, f, insts, p);
    DisplacementNone(p - 1, GenFrom(isa, f, insts, p).plan);
  }

  /** A tail of the rest of the output, seen from one instruction earlier. */
  lemma ShiftedSuffix(out: seq<byte>, plan: seq<Insertion>, pre: seq<byte>, inst: seq<byte>,
                      rest: seq<byte>, restPlan: seq<Insertion>, p: nat, s: nat, tail: seq<byte>)
    requires out == pre + inst + rest && p + |inst| <= s
    requires Displacement(s - 1, plan) == |pre| + Displacement(s - 1, restPlan)
    requires var o := s - (p + |inst|) + Displacement(s - 1, restPlan);
      o <= |rest| && rest[o..] == tail
    ensures var o := s - p + Displacement(s - 1, plan);
      o <= |out| && out[o..] == tail
  {
    var o := s - (p + |inst|) + Displacement(s - 1, restPlan);
    assert (pre + inst + rest)[|pre + inst| + o..] == rest[o..];
  }

  /** The bytes the policy returns for an instruction it answers
      patchInsertBefore for open the generation from that instruction. */
  lemma GenHead(isa: Isa, f: PatchFunc, insts: seq<byte>, s: nat)
    requires WellFormed(isa, insts, s) && Fits(isa, insts, s)
    requires f(CursorAt(isa, insts, s)).0 == PatchInsertBefore
    ensures var blob := f(CursorAt(isa, insts, s)).1;
      var h := GenFrom(isa, f, insts, s);
      |blob| <= |h.out| && h.out[..|blob|] == blob
  {
  }

  /** The bytes the policy returned for an insertion sit in the output right
      before the relocated instruction they were inserted for. */
  lemma GeneratedBlob(isa: Isa, f: PatchFunc, insts: seq<byte>, ins: Insertion)
    requires WellFormed(isa, insts, 0) && GenFrom(isa, f, insts, 0).err.None?
    requires ins in GenFrom(isa, f, insts, 0).plan
    ensures Fits(isa, insts, ins.at) && f(CursorAt(isa, insts, ins.at)).0 == PatchInsertBefore
    ensures var g := GenFrom(isa, f, insts, 0);
      var e := Relocated(ins.at, g.plan);
      && ins.size <= e <= |g.out|
      && g.out[e - ins.size..e] == f(CursorAt(isa, insts, ins.at)).1
  {
    var g := GenFrom(isa, f, insts, 0);
    GenPlanExact(isa, f, insts, 0, ins);
    GenSuffix(isa, f, insts, 0, ins.at);
    GenHead(isa, f, insts, ins.at);
    GenPlanOrdered(isa, f, insts, 0);
    DisplacementSplit(ins.at - 1, ins.at, g.plan);
    SizeInOne(g.plan, ins.at - 1, ins.at, ins);
  }

  /** The instruction at `p` follows the bytes inserted before it. */
  lemma GenLayoutHere(isa: Isa, f: PatchFunc, insts: seq<byte>, p: nat)
    requires WellFormed(isa, insts, p) && p < |insts| && insts[p] < |isa.operands|
    requires GenFrom(isa, f, insts, p).err.None?
    ensures var g := GenFrom(isa, f, insts, p);
      var o, n := Displacement(p, g.plan), NextPos(isa, insts, p) - p;
      && o + n <= |g.out|
      && g.out[o..o + n] == insts[p..p + n]
  {
    var next := NextPos(isa, insts, p);
    var rest := GenFrom(isa, f, insts, next);
    var pre := GenStep(isa, f, insts, p);
    GenPlanOrdered(isa, f, insts, next);
    DisplacementNone(p, rest.plan);
    SliceOfConcat(pre, insts[p..next] + rest.out, 0, next - p);
  }
}
