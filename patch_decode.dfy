/** A patched function still decodes: when every block of bytes the policy
    inserts decodes on its own, the instructions bytecodePatcher produces
    decode from the first byte to the last without an error. */
module PatchDecode {
  import opened Ugo
  import opened Decoder
  import opened Relocation
  import opened Scan
  import opened Generation
  import opened PatchSpec

  /** Every patchInsertBefore answer comes with bytes that decode. */
  ghost predicate BlobsDecode(isa: Isa, f: PatchFunc) {
    forall c :: f(c).0 == PatchInsertBefore ==> Decodes(isa, f(c).1, 0)
  }

  /** Where the bytes inserted before input position `p` begin in the
      output: after everything inserted before `p`. */
  function Front(p: int, plan: seq<Insertion>): int {
    p + Displacement(p - 1, plan)
  }

  /** Nothing is inserted inside an instruction: the displacement at its
      last byte is the displacement at its first. */
  lemma PlanGap(isa: Isa, f: PatchFunc, insts: seq<byte>, p: nat)
    requires WellFormed(isa, insts, 0) && Generated(isa, f, insts)
    requires IsStart(isa, insts, 0, p) && Fits(isa, insts, p)
    ensures var plan := GenFrom(isa, f, insts, 0).plan;
      Displacement(NextPos(isa, insts, p) - 1, plan) == Displacement(p, plan)
  {
    var plan := GenFrom(isa, f, insts, 0).plan;
    var next := NextPos(isa, insts, p);
    forall i | 0 <= i < |plan| ensures !(p < plan[i].at <= next - 1) {
      GenPlanExact(isa, f, insts, 0, plan[i]);
      if p < plan[i].at {
        StartsApart(isa, insts, 0, p, plan[i].at);
      }
    }
    DisplacementSplit(p, next - 1, plan);
    SizeInNone(plan, p, next - 1);
  }

  /** The relocated instruction decodes when what follows it does. */
  lemma StartDecodes(isa: Isa, f: PatchFunc, insts: seq<byte>, p: nat)
    requires WellFormed(isa, insts, 0) && Generated(isa, f, insts)
    requires IsStart(isa, insts, 0, p) && Fits(isa, insts, p)
    requires Decodes(isa, Final(isa, f, insts), Front(NextPos(isa, insts, p), GenFrom(isa, f, insts, 0).plan))
    ensures Decodes(isa, Final(isa, f, insts), Relocated(p, GenFrom(isa, f, insts, 0).plan))
  {
    var out, plan := Final(isa, f, insts), GenFrom(isa, f, insts, 0).plan;
    var o := Relocated(p, plan);
    FinalLayout(isa, f, insts, p);
    PlanGap(isa, f, insts, p);
    assert NextPos(isa, out, o) == Front(NextPos(isa, insts, p), plan);
    DecodesStep(isa, out, o);
  }

  /** The bytes inserted before an instruction decode in front of it. */
  lemma BlobDecodesBefore(isa: Isa, f: PatchFunc, insts: seq<byte>, p: nat)
    requires WellFormed(isa, insts, 0) && Generated(isa, f, insts) && BlobsDecode(isa, f)
    requires IsStart(isa, insts, 0, p) && Fits(isa, insts, p)
    requires f(CursorAt(isa, insts, p)).0 == PatchInsertBefore
    requires Decodes(isa, Final(isa, f, insts), Relocated(p, GenFrom(isa, f, insts, 0).plan))
    ensures Decodes(isa, Final(isa, f, insts), Front(p, GenFrom(isa, f, insts, 0).plan))
  {
    var plan := GenFrom(isa, f, insts, 0).plan;
    var blob := f(CursorAt(isa, insts, p)).1;
    var ins := Insertion(p, |blob|);
    BlobInsertion(isa, f, insts, p);
    FinalBlob(isa, f, insts, ins);
    WindowInFront(isa, Final(isa, f, insts), blob, Relocated(p, plan), Front(p, plan));
  }

  /** The policy's bytes for an instruction are inserted right before it. */
  lemma BlobInsertion(isa: Isa, f: PatchFunc, insts: seq<byte>, p: nat)
    requires WellFormed(isa, insts, 0) && Generated(isa, f, insts)
    requires IsStart(isa, insts, 0, p) && Fits(isa, insts, p)
    requires f(CursorAt(isa, insts, p)).0 == PatchInsertBefore
    ensures var plan, n := GenFrom(isa, f, insts, 0).plan, |f(CursorAt(isa, insts, p)).1|;
      Insertion(p, n) in plan && Front(p, plan) == Relocated(p, plan) - n
  {
    var plan := GenFrom(isa, f, insts, 0).plan;
    var ins := Insertion(p, |f(CursorAt(isa, insts, p)).1|);
    GenPlanExact(isa, f, insts, 0, ins);
    GenPlanOrdered(isa, f, insts, 0);
    DisplacementSplit(p - 1, p, plan);
    SizeInOne(plan, p - 1, p, ins);
  }

  /** Bytes that decode, placed right before a position the buffer decodes
      from, decode in place. */
  lemma WindowInFront(isa: Isa, out: seq<byte>, w: seq<byte>, e: int, front: int)
    requires |w| <= e <= |out| && out[e - |w|..e] == w && front == e - |w|
    requires Decodes(isa, w, 0) && Decodes(isa, out, e)
    ensures Decodes(isa, out, front)
  {
    DecodesWindow(isa, out, w, front, 0);
  }

  /** Without an insertion before an instruction, its bytes come first. */
  lemma NoBlobBefore(isa: Isa, f: PatchFunc, insts: seq<byte>, p: nat)
    requires WellFormed(isa, insts, 0) && Generated(isa, f, insts)
    requires Fits(isa, insts, p) && f(CursorAt(isa, insts, p)).0 != PatchInsertBefore
    ensures var plan := GenFrom(isa, f, insts, 0).plan;
      Front(p, plan) == Relocated(p, plan)
  {
    var plan := GenFrom(isa, f, insts, 0).plan;
    forall i | 0 <= i < |plan| ensures !(p - 1 < plan[i].at <= p) {
      GenPlanExact(isa, f, insts, 0, plan[i]);
    }
    DisplacementSplit(p - 1, p, plan);
    SizeInNone(plan, p - 1, p);
  }

  /** Decoding the final bytes from where the instruction at `p`, or the
      bytes inserted before it, begin succeeds; `p` may also be the end. */
  lemma {:induction false} FinalDecodesFrom(isa: Isa, f: PatchFunc, insts: seq<byte>, p: nat)
    requires WellFormed(isa, insts, 0) && Generated(isa, f, insts) && BlobsDecode(isa, f)
    requires IsStart(isa, insts, 0, p) || p == |insts|
    ensures Decodes(isa, Final(isa, f, insts), Front(p, GenFrom(isa, f, insts, 0).plan))
    decreases |insts| - p
  {
    var plan := GenFrom(isa, f, insts, 0).plan;
    if p == |insts| {
      FinalEnd(isa, f, insts);
    } else {
      StartFits(isa, insts, 0, p);
      var next := NextPos(isa, insts, p);
      if next < |insts| {
        StartScan(isa, insts, 0, p);
        StartNext(isa, insts, 0, p);
      }
      FinalDecodesFrom(isa, f, insts, next);
      StartDecodes(isa, f, insts, p);
      if f(CursorAt(isa, insts, p)).0 == PatchInsertBefore {
        BlobDecodesBefore(isa, f, insts, p);
      } else {
        NoBlobBefore(isa, f, insts, p);
      }
    }
  }

  /** Past the last instruction comes the end of the final bytes. */
  lemma FinalEnd(isa: Isa, f: PatchFunc, insts: seq<byte>)
    requires WellFormed(isa, insts, 0) && Generated(isa, f, insts)
    ensures Front(|insts|, GenFrom(isa, f, insts, 0).plan) == |Final(isa, f, insts)|
  {
    var plan := GenFrom(isa, f, insts, 0).plan;
    forall i | 0 <= i < |plan| ensures plan[i].at <= |insts| - 1 {
      GenPlanExact(isa, f, insts, 0, plan[i]);
    }
    DisplacementAll(|insts| - 1, plan);
    GenLength(isa, f, insts, 0);
  }

  /** The final bytes of a function that decodes decode. */
  lemma FinalDecodes(isa: Isa, f: PatchFunc, insts: seq<byte>)
    requires WellFormed(isa, insts, 0) && Generated(isa, f, insts) && BlobsDecode(isa, f)
    ensures Decodes(isa, Final(isa, f, insts), 0)
  {
    var plan := GenFrom(isa, f, insts, 0).plan;
    GenPlanOrdered(isa, f, insts, 0);
    DisplacementNone(-1, plan);
    FinalDecodesFrom(isa, f, insts, 0);
  }

  /** A patched function decodes from its first byte to its last, when the
      policy's inserted bytes do. */
  lemma PatchDecodes(isa: Isa, f: PatchFunc, insts: seq<byte>, sm: map<int, int>, order: seq<int>)
    requires isa.Valid() && WellFormed(isa, insts, 0) && Enumerates(order, sm)
    requires PatchFunction(isa, f, insts, sm, order).err.None? && BlobsDecode(isa, f)
    ensures Decodes(isa, PatchFunction(isa, f, insts, sm, order).insts, 0)
  {
    PatchFunctionOk(isa, f, insts, sm, order);
    FinalDecodes(isa, f, insts);
  }
}
