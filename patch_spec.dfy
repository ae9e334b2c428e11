/** One function's patch, as bytecodePatcher runs it: scan the jump
    operands, generate the new instructions, rewrite the moved jump
    operands, and rebuild the source map; with what that promises. */
module PatchSpec {
  import opened Ugo
  import opened Decoder
  import opened Relocation
  import opened Scan
  import opened Generation
  import opened Update

  /** Outcome of patching one function: the error, the new instructions and
      source map (the old ones when there is an error), and the number of
      insertions made. */
  datatype FnPatch = FnPatch(err: Option<Error>, insts: seq<byte>, sourceMap: map<int, int>, inserted: nat)

  /** The records after a run of insertions. */
  function FoldRecords(isa: Isa, rs: seq<PosJump>, outs: seq<Insertion>): (r: seq<PosJump>)
    ensures |r| == |rs| && forall i :: 0 <= i < |rs| ==> r[i] == FoldRecord(isa, rs[i], outs)
  {
    seq(|rs|, i requires 0 <= i < |rs| => FoldRecord(isa, rs[i], outs))
  }

  /** The source-map keys after a run of insertions. */
  function FoldKeys(keys: seq<int>, outs: seq<Insertion>): (r: seq<int>)
    ensures |r| == |keys| && forall i :: 0 <= i < |keys| ==> r[i] == FoldPos(keys[i], outs)
  {
    seq(|keys|, i requires 0 <= i < |keys| => FoldPos(keys[i], outs))
  }

  /** The source-map values in the order the keys were loaded. */
  function ValuesOf(order: seq<int>, sm: map<int, int>): (r: seq<int>)
    requires forall i :: 0 <= i < |order| ==> order[i] in sm
    ensures |r| == |order| && forall i :: 0 <= i < |order| ==> r[i] == sm[order[i]]
  {
    seq(|order|, i requires 0 <= i < |order| => sm[order[i]])
  }

  /** The state between generate and updateJumps when both earlier passes
      succeeded. */
  predicate Generated(isa: Isa, f: PatchFunc, insts: seq<byte>)
    requires WellFormed(isa, insts, 0)
  {
    isa.Valid() && ScanError(isa, insts, 0).None? && GenFrom(isa, f, insts, 0).err.None?
  }

  /** The generated bytes hold the instruction that starts at input
      position `s` at its relocated position. */
  lemma GeneratedAt(isa: Isa, f: PatchFunc, insts: seq<byte>, s: nat)
    requires WellFormed(isa, insts, 0) && Generated(isa, f, insts) && IsStart(isa, insts, 0, s)
    ensures Fits(isa, insts, s)
    ensures var g := GenFrom(isa, f, insts, 0);
      var o, n := Relocated(s, g.plan), NextPos(isa, insts, s) - s;
      && 0 <= o && o + n <= |g.out|
      && g.out[o..o + n] == insts[s..s + n] && g.out[o] == insts[s]
  {
    var g := GenFrom(isa, f, insts, 0);
    GenLayout(isa, f, insts, 0, s);
    WindowAt(g.out, insts, s - 0 + Displacement(s, g.plan), Relocated(s, g.plan), s, NextPos(isa, insts, s) - s);
  }

  /** A window found at one offset, read again at an equal offset. */
  lemma WindowAt(out: seq<byte>, insts: seq<byte>, a: int, b: int, s: nat, n: nat)
    requires a == b && 0 <= a && a + n <= |out| && s + n <= |insts|
    requires out[a..a + n] == insts[s..s + n]
    ensures 0 <= b && b + n <= |out| && out[b..b + n] == insts[s..s + n]
    ensures 0 < n ==> out[b] == insts[s]
  {
    if 0 < n {
      assert out[b] == out[b..b + n][0];
    }
  }

  /** The first byte and the rest of two equal windows. */
  lemma WindowParts(a: seq<byte>, b: seq<byte>, o: nat, s: nat, n: nat)
    requires 0 < n
    requires o + n <= |a| && s + n <= |b|
    requires a[o..o + n] == b[s..s + n]
    ensures a[o] == b[s] && a[o + 1..o + n] == b[s + 1..s + n]
  {
    assert a[o] == a[o..o + n][0] && b[s] == b[s..s + n][0];
    assert a[o + 1..o + n] == a[o..o + n][1..] && b[s + 1..s + n] == b[s..s + n][1..];
  }

  /** A moved record sits on its instruction in the generated bytes, and a
      record left unflagged already holds its target there. */
  lemma MovedRecordPlaced(isa: Isa, f: PatchFunc, insts: seq<byte>, r: PosJump)
    requires WellFormed(isa, insts, 0) && Generated(isa, f, insts)
    requires Recorded(isa, insts, 0, r)
    ensures var g := GenFrom(isa, f, insts, 0);
      var m := FoldRecord(isa, r, ToOutput(g.plan));
      && m.pos == Relocated(r.pos, g.plan)
      && RecordFits(isa, m, |g.out|) && g.out[m.pos] == m.opcode
      && OperandsIn(isa, g.out, m) == CursorAt(isa, insts, r.pos).operands
      && (!m.updated ==> Holds(isa, g.out, m))
  {
    var g := GenFrom(isa, f, insts, 0);
    GenPlanOrdered(isa, f, insts, 0);
    GeneratedAt(isa, f, insts, r.pos);
    MovedRecordOnCopy(isa, insts, g.plan, g.out, r);
  }

  /** A scan record moved by an increasing plan, over bytes that hold its
      instruction at the relocated position. */
  lemma MovedRecordOnCopy(isa: Isa, insts: seq<byte>, plan: seq<Insertion>, out: seq<byte>, r: PosJump)
    requires isa.Valid() && Increasing(plan) && r.pos >= 0 && Fits(isa, insts, r.pos)
    requires var c := CursorAt(isa, insts, r.pos);
      r.opcode == c.opcode && r.operand < |c.operands| && r.jump == c.operands[r.operand]
    requires var o, n := Relocated(r.pos, plan), NextPos(isa, insts, r.pos) - r.pos;
      0 <= o && o + n <= |out| && out[o..o + n] == insts[r.pos..r.pos + n]
    ensures var m := FoldRecord(isa, r, ToOutput(plan));
      && m.pos == Relocated(r.pos, plan)
      && RecordFits(isa, m, |out|) && out[m.pos] == m.opcode
      && OperandsIn(isa, out, m) == CursorAt(isa, insts, r.pos).operands
      && (!m.updated ==> Holds(isa, out, m))
  {
    RecordNetEffect(isa, r, plan);
    CopiedRecordPlaced(isa, out, insts, r, FoldRecord(isa, r, ToOutput(plan)));
  }

  /** A record's instruction copied to the record's new position. */
  lemma CopiedRecordPlaced(isa: Isa, out: seq<byte>, insts: seq<byte>, r: PosJump, m: PosJump)
    requires isa.Valid() && r.pos >= 0 && Fits(isa, insts, r.pos)
    requires var c := CursorAt(isa, insts, r.pos);
      r.opcode == c.opcode && r.operand < |c.operands| && r.jump == c.operands[r.operand]
    requires m.opcode == r.opcode && m.operand == r.operand && m.pos >= 0
    requires !m.updated ==> m.jump == r.jump
    requires var n := NextPos(isa, insts, r.pos) - r.pos;
      && m.pos + n <= |out| && out[m.pos..m.pos + n] == insts[r.pos..r.pos + n]
    ensures RecordFits(isa, m, |out|) && out[m.pos] == m.opcode
    ensures OperandsIn(isa, out, m) == CursorAt(isa, insts, r.pos).operands
    ensures !m.updated ==> Holds(isa, out, m)
  {
    WindowParts(out, insts, m.pos, r.pos, NextPos(isa, insts, r.pos) - r.pos);
    if !m.updated {
      var w := isa.operands[r.opcode][r.operand];
      DivModUnique(r.jump, Pow256(w), 0, r.jump);
    }
  }

  /** Two records of the scan stay compatible once moved. */
  lemma MovedRecordsCompatible(isa: Isa, f: PatchFunc, insts: seq<byte>, a: PosJump, b: PosJump)
    requires WellFormed(isa, insts, 0) && Generated(isa, f, insts)
    requires Recorded(isa, insts, 0, a) && Recorded(isa, insts, 0, b)
    requires a.pos < b.pos || (a.pos == b.pos && a.operand < b.operand)
    ensures var plan := GenFrom(isa, f, insts, 0).plan;
      Compatible(isa, FoldRecord(isa, a, ToOutput(plan)), FoldRecord(isa, b, ToOutput(plan)))
  {
    var plan := GenFrom(isa, f, insts, 0).plan;
    GenPlanOrdered(isa, f, insts, 0);
    RecordNetEffect(isa, a, plan);
    RecordNetEffect(isa, b, plan);
    StartFits(isa, insts, 0, a.pos);
    if a.pos < b.pos {
      StartsApart(isa, insts, 0, a.pos, b.pos);
      RelocatedSpread(a.pos, b.pos, plan);
    }
  }

  /** The records of the scan, moved by the insertions of generate. */
  function MovedRecords(isa: Isa, f: PatchFunc, insts: seq<byte>): seq<PosJump>
    requires isa.Valid() && WellFormed(isa, insts, 0)
  {
    FoldRecords(isa, RecordsFrom(isa, insts, 0), ToOutput(GenFrom(isa, f, insts, 0).plan))
  }

  /** Everything updateJumps needs holds of the moved records. */
  lemma MovedRecordsReady(isa: Isa, f: PatchFunc, insts: seq<byte>)
    requires WellFormed(isa, insts, 0) && Generated(isa, f, insts)
    ensures var out, recs := GenFrom(isa, f, insts, 0).out, MovedRecords(isa, f, insts);
      && (forall r :: r in recs ==> RecordFits(isa, r, |out|) && out[r.pos] == r.opcode)
      && PairwiseCompatible(isa, recs)
      && (forall r :: r in recs && !r.updated ==> Holds(isa, out, r))
  {
    var rs := RecordsFrom(isa, insts, 0);
    var recs := MovedRecords(isa, f, insts);
    var out := GenFrom(isa, f, insts, 0).out;
    RecordsFromRecorded(isa, insts, 0);
    RecordsFromOrdered(isa, insts, 0);
    forall r | r in recs
      ensures RecordFits(isa, r, |out|) && out[r.pos] == r.opcode && (!r.updated ==> Holds(isa, out, r))
    {
      var i :| 0 <= i < |recs| && recs[i] == r;
      assert rs[i] in rs;
      MovedRecordPlaced(isa, f, insts, rs[i]);
    }
    forall i, j | 0 <= i < j < |recs| ensures Compatible(isa, recs[i], recs[j]) {
      assert rs[i] in rs && rs[j] in rs;
      MovedRecordsCompatible(isa, f, insts, rs[i], rs[j]);
    }
  }

  /** bytecodePatcher's three passes and the source map rebuild for one
      function. `order` is the order in which the source map's keys are
      read. */
  function PatchFunction(isa: Isa, f: PatchFunc, insts: seq<byte>, sm: map<int, int>, order: seq<int>): FnPatch
    requires isa.Valid() && WellFormed(isa, insts, 0) && Enumerates(order, sm)
  {
    var scan := ScanError(isa, insts, 0);
    if scan.Some? then FnPatch(scan, insts, sm, 0)
    else
      var g := GenFrom(isa, f, insts, 0);
      if g.err.Some? then FnPatch(g.err, insts, sm, |g.plan|)
      else
        var outs := ToOutput(g.plan);
        var recs := MovedRecords(isa, f, insts);
        MovedRecordsReady(isa, f, insts);
        var u := UpdateFrom(isa, recs, g.out);
        if u.err.Some? then FnPatch(u.err, insts, sm, |g.plan|)
        else FnPatch(None, u.buf, Zip(FoldKeys(order, outs), ValuesOf(order, sm)), |g.plan|)
    }

  /** A start of a jump instruction, or of SETUPTRY, has a target in `slot`. */
  predicate JumpSlot(isa: Isa, op: byte, slot: nat) {
    (isa.IsSingleJump(op) && slot == 0) || (op == isa.opSetupTry && slot < 2)
  }

  /** Where a jump target operand points after the patch: relocated like
      any position, except the SETUPTRY target 0 that means "none". */
  function NewTarget(isa: Isa, op: byte, target: int, plan: seq<Insertion>): int {
    if op == isa.opSetupTry && target == 0 then 0 else Relocated(target, plan)
  }

  /** Instructions that start apart stay apart once relocated. */
  lemma RelocatedApart(isa: Isa, insts: seq<byte>, plan: seq<Insertion>, s: nat, t: nat)
    requires WellFormed(isa, insts, 0) && IsStart(isa, insts, 0, s) && IsStart(isa, insts, 0, t) && s < t
    ensures Fits(isa, insts, s)
    ensures Relocated(s, plan) + (NextPos(isa, insts, s) - s) <= Relocated(t, plan)
  {
    StartsApart(isa, insts, 0, s, t);
    RelocatedSpread(s, t, plan);
  }

  /** The moved records, one by one, with the scan record each came from. */
  lemma MovedRecordOrigin(isa: Isa, f: PatchFunc, insts: seq<byte>, m: PosJump) returns (r: PosJump)
    requires WellFormed(isa, insts, 0) && Generated(isa, f, insts)
    requires m in MovedRecords(isa, f, insts)
    ensures r in RecordsFrom(isa, insts, 0) && Recorded(isa, insts, 0, r)
    ensures m == FoldRecord(isa, r, ToOutput(GenFrom(isa, f, insts, 0).plan))
    ensures m.pos == Relocated(r.pos, GenFrom(isa, f, insts, 0).plan) && m.opcode == r.opcode
    ensures m.opcode < |isa.operands| && End(isa, m) == m.pos + (NextPos(isa, insts, r.pos) - r.pos)
  {
    var rs := RecordsFrom(isa, insts, 0);
    var recs := MovedRecords(isa, f, insts);
    var i :| 0 <= i < |recs| && recs[i] == m;
    r := rs[i];
    RecordsFromRecorded(isa, insts, 0);
    GenPlanOrdered(isa, f, insts, 0);
    RecordNetEffect(isa, r, GenFrom(isa, f, insts, 0).plan);
  }

  /** No moved record rewrites the opcode byte of an instruction. */
  lemma OpcodeUntouched(isa: Isa, f: PatchFunc, insts: seq<byte>, s: nat)
    requires WellFormed(isa, insts, 0) && Generated(isa, f, insts)
    requires IsStart(isa, insts, 0, s) && Fits(isa, insts, s)
    ensures var o := Relocated(s, GenFrom(isa, f, insts, 0).plan);
      forall m :: m in MovedRecords(isa, f, insts) && m.updated && m.opcode < |isa.operands| ==>
        !(m.pos < o < End(isa, m))
  {
    var plan := GenFrom(isa, f, insts, 0).plan;
    forall m | m in MovedRecords(isa, f, insts) && m.updated && m.opcode < |isa.operands|
      ensures !(m.pos < Relocated(s, plan) < End(isa, m))
    {
      var r := MovedRecordOrigin(isa, f, insts, m);
      if r.pos < s {
        RelocatedApart(isa, insts, plan, r.pos, s);
      } else if r.pos == s {
        assert m.pos == Relocated(s, plan);
      } else {
        RelocatedApart(isa, insts, plan, s, r.pos);
      }
    }
  }

  /** updateJumps never fails: patching a function fails exactly when its
      instructions hold an opcode outside the table or the policy gives an
      answer generate does not know, and then nothing changes. */
  lemma PatchErrors(isa: Isa, f: PatchFunc, insts: seq<byte>, sm: map<int, int>, order: seq<int>)
    requires isa.Valid() && WellFormed(isa, insts, 0) && Enumerates(order, sm)
    ensures var r := PatchFunction(isa, f, insts, sm, order);
      && (r.err.Some? <==> ScanError(isa, insts, 0).Some? || GenFrom(isa, f, insts, 0).err.Some?)
      && (r.err.Some? ==> r.err.value.InvalidOpcode? || r.err.value.UnknownPatchOp?)
      && (r.err.Some? ==> r.insts == insts && r.sourceMap == sm)
  {
    if ScanError(isa, insts, 0).None? && GenFrom(isa, f, insts, 0).err.None? {
      MovedRecordsReady(isa, f, insts);
      UpdateFromOk(isa, MovedRecords(isa, f, insts), GenFrom(isa, f, insts, 0).out);
    } else if ScanError(isa, insts, 0).None? {
      GenError(isa, f, insts, 0);
    } else {
      var e := ScanError(isa, insts, 0).value;
      ScanErrorIsInvalidOpcode(isa, insts, 0);
    }
  }

  lemma {:induction false} ScanErrorIsInvalidOpcode(isa: Isa, insts: seq<byte>, p: nat)
    ensures ScanError(isa, insts, p).Some? ==> ScanError(isa, insts, p).value.InvalidOpcode?
    decreases |insts| - p
  {
    if p < |insts| && insts[p] < |isa.operands| {
      ScanErrorIsInvalidOpcode(isa, insts, NextPos(isa, insts, p));
    }
  }

  /** What a successful patch is made of. */
  lemma PatchFunctionOk(isa: Isa, f: PatchFunc, insts: seq<byte>, sm: map<int, int>, order: seq<int>)
    requires isa.Valid() && WellFormed(isa, insts, 0) && Enumerates(order, sm)
    requires PatchFunction(isa, f, insts, sm, order).err.None?
    ensures Generated(isa, f, insts)
    ensures var r, plan := PatchFunction(isa, f, insts, sm, order), GenFrom(isa, f, insts, 0).plan;
      && r.inserted == |plan|
      && r.insts == Final(isa, f, insts)
      && r.sourceMap == Zip(FoldKeys(order, ToOutput(plan)), ValuesOf(order, sm))
  {
  }

  /** The bytes after updateJumps, when the first two passes succeeded. */
  function Final(isa: Isa, f: PatchFunc, insts: seq<byte>): (b: seq<byte>)
    requires WellFormed(isa, insts, 0) && Generated(isa, f, insts)
    ensures |b| == |GenFrom(isa, f, insts, 0).out|
  {
    MovedRecordsReady(isa, f, insts);
    UpdateFrom(isa, MovedRecords(isa, f, insts), GenFrom(isa, f, insts, 0).out).buf
  }

  /** The window of an instruction without jump targets keeps the
      generated bytes. */
  lemma FinalCopy(isa: Isa, f: PatchFunc, insts: seq<byte>, s: nat)
    requires WellFormed(isa, insts, 0) && Generated(isa, f, insts)
    requires IsStart(isa, insts, 0, s) && Fits(isa, insts, s)
    requires !isa.IsSingleJump(insts[s]) && insts[s] != isa.opSetupTry
    ensures var g := GenFrom(isa, f, insts, 0);
      var o, n := Relocated(s, g.plan), NextPos(isa, insts, s) - s;
      0 <= o && o + n <= |g.out| && |Final(isa, f, insts)| == |g.out|
      && Final(isa, f, insts)[o..o + n] == g.out[o..o + n]
  {
    GeneratedAt(isa, f, insts, s);
    MovedRecordsClear(isa, f, insts, s);
    FinalKeeps(isa, f, insts, Relocated(s, GenFrom(isa, f, insts, 0).plan), NextPos(isa, insts, s) - s);
  }

  /** updateJumps leaves alone a window of the generated bytes that no
      moved record's instruction overlaps. */
  lemma FinalKeeps(isa: Isa, f: PatchFunc, insts: seq<byte>, o: int, n: int)
    requires WellFormed(isa, insts, 0) && Generated(isa, f, insts)
    requires 0 <= o && 0 <= n && o + n <= |GenFrom(isa, f, insts, 0).out|
    requires forall m :: m in MovedRecords(isa, f, insts) && m.updated && m.opcode < |isa.operands| ==>
      End(isa, m) <= o || o + n <= m.pos
    ensures |Final(isa, f, insts)| == |GenFrom(isa, f, insts, 0).out|
    ensures Final(isa, f, insts)[o..o + n] == GenFrom(isa, f, insts, 0).out[o..o + n]
  {
    MovedRecordsReady(isa, f, insts);
    UpdateFromWindow(isa, MovedRecords(isa, f, insts), GenFrom(isa, f, insts, 0).out, o, n);
  }

  /** No moved record rewrites a byte of an instruction without jump
      targets. */
  lemma MovedRecordsClear(isa: Isa, f: PatchFunc, insts: seq<byte>, s: nat)
    requires WellFormed(isa, insts, 0) && Generated(isa, f, insts)
    requires IsStart(isa, insts, 0, s) && Fits(isa, insts, s)
    requires !isa.IsSingleJump(insts[s]) && insts[s] != isa.opSetupTry
    ensures var o, n := Relocated(s, GenFrom(isa, f, insts, 0).plan), NextPos(isa, insts, s) - s;
      forall m :: m in MovedRecords(isa, f, insts) && m.updated && m.opcode < |isa.operands| ==>
        End(isa, m) <= o || o + n <= m.pos
  {
    var plan := GenFrom(isa, f, insts, 0).plan;
    var o, n := Relocated(s, plan), NextPos(isa, insts, s) - s;
    forall m | m in MovedRecords(isa, f, insts) && m.updated && m.opcode < |isa.operands|
      ensures End(isa, m) <= o || o + n <= m.pos
    {
      var r := MovedRecordOrigin(isa, f, insts, m);
      if r.pos < s {
        RelocatedApart(isa, insts, plan, r.pos, s);
      } else {
        assert r.pos != s;
        RelocatedApart(isa, insts, plan, s, r.pos);
      }
    }
  }

  /** The layout of the final bytes. */
  lemma FinalLayout(isa: Isa, f: PatchFunc, insts: seq<byte>, s: nat)
    requires WellFormed(isa, insts, 0) && Generated(isa, f, insts)
    requires IsStart(isa, insts, 0, s) && Fits(isa, insts, s)
    ensures var out, plan := Final(isa, f, insts), GenFrom(isa, f, insts, 0).plan;
      var o, n := Relocated(s, plan), NextPos(isa, insts, s) - s;
      && |out| == |insts| + Total(plan)
      && 0 <= o && o + n <= |out| && out[o] == insts[s]
      && (!isa.IsSingleJump(insts[s]) && insts[s] != isa.opSetupTry ==>
            out[o..o + n] == insts[s..s + n])
  {
    GenLength(isa, f, insts, 0);
    FinalOpcode(isa, f, insts, s);
    if !isa.IsSingleJump(insts[s]) && insts[s] != isa.opSetupTry {
      GeneratedAt(isa, f, insts, s);
      FinalCopy(isa, f, insts, s);
    }
  }

  /** Every instruction keeps its opcode at its relocated position. */
  lemma FinalOpcode(isa: Isa, f: PatchFunc, insts: seq<byte>, s: nat)
    requires WellFormed(isa, insts, 0) && Generated(isa, f, insts)
    requires IsStart(isa, insts, 0, s) && Fits(isa, insts, s)
    ensures var g := GenFrom(isa, f, insts, 0);
      var o, n := Relocated(s, g.plan), NextPos(isa, insts, s) - s;
      0 <= o && o + n <= |g.out| && |Final(isa, f, insts)| == |g.out|
      && Final(isa, f, insts)[o] == insts[s]
  {
    var g := GenFrom(isa, f, insts, 0);
    var o, n := Relocated(s, g.plan), NextPos(isa, insts, s) - s;
    assert 0 <= o < |g.out| && o + n <= |g.out| && g.out[o] == insts[s] by {
      GeneratedAt(isa, f, insts, s);
    }
    assert Final(isa, f, insts)[o] == g.out[o] by {
      MovedRecordsReady(isa, f, insts);
      OpcodeUntouched(isa, f, insts, s);
      UpdateFromFrame(isa, MovedRecords(isa, f, insts), g.out, o);
    }
  }

  /** After updateJumps every moved record's operand holds its target. */
  lemma FinalHolds(isa: Isa, f: PatchFunc, insts: seq<byte>, i: nat)
    requires WellFormed(isa, insts, 0) && Generated(isa, f, insts)
    requires i < |RecordsFrom(isa, insts, 0)|
    ensures Holds(isa, Final(isa, f, insts), MovedRecords(isa, f, insts)[i])
  {
    var recs := MovedRecords(isa, f, insts);
    MovedRecordsReady(isa, f, insts);
    UpdateFromOk(isa, recs, GenFrom(isa, f, insts, 0).out);
    assert recs[i] in recs;
  }

  /** The scan record of a jump operand. */
  lemma RecordFor(isa: Isa, insts: seq<byte>, s: nat, slot: nat) returns (i: nat)
    requires isa.Valid() && WellFormed(isa, insts, 0)
    requires IsStart(isa, insts, 0, s) && Fits(isa, insts, s) && JumpSlot(isa, insts[s], slot)
    ensures i < |RecordsFrom(isa, insts, 0)|
    ensures var r := RecordsFrom(isa, insts, 0)[i];
      && r.pos == s && r.operand == slot && r.opcode == insts[s]
      && slot < |isa.operands[insts[s]]| && r.jump == CursorAt(isa, insts, s).operands[slot]
  {
    var rs := RecordsFrom(isa, insts, 0);
    RecordsFromComplete(isa, insts, 0, s, slot);
    var r :| r in rs && r.pos == s && r.operand == slot;
    i :| 0 <= i < |rs| && rs[i] == r;
    RecordsFromRecorded(isa, insts, 0);
    assert Recorded(isa, insts, 0, r);
  }

  /** A moved record: the scan record at the same index, relocated. */
  lemma MovedRecordAt(isa: Isa, f: PatchFunc, insts: seq<byte>, i: nat)
    requires WellFormed(isa, insts, 0) && Generated(isa, f, insts)
    requires i < |RecordsFrom(isa, insts, 0)|
    ensures var r, m, plan := RecordsFrom(isa, insts, 0)[i], MovedRecords(isa, f, insts)[i], GenFrom(isa, f, insts, 0).plan;
      && m.pos == Relocated(r.pos, plan) && m.jump == NewTarget(isa, r.opcode, r.jump, plan)
      && m.opcode == r.opcode && m.operand == r.operand
  {
    var r, plan := RecordsFrom(isa, insts, 0)[i], GenFrom(isa, f, insts, 0).plan;
    GenPlanOrdered(isa, f, insts, 0);
    RecordNetEffect(isa, r, plan);
  }

  /** Operand `slot` of the instruction with opcode `op` at `o` in `buf`. */
  function OperandAt(isa: Isa, buf: seq<byte>, o: int, op: byte, slot: nat): nat
    requires op < |isa.operands| && slot < |isa.operands[op]|
    requires 0 <= o && o + 1 + isa.Width(op) <= |buf|
  {
    ReadOperands(isa.operands[op], buf[o + 1..o + 1 + isa.Width(op)])[slot]
  }

  /** The operand a record holds, read at the instruction it names. */
  lemma HeldOperand(isa: Isa, buf: seq<byte>, m: PosJump, o: int, op: byte, slot: nat, target: int)
    requires Holds(isa, buf, m)
    requires m.pos == o && m.opcode == op && m.operand == slot && m.jump == target
    ensures op < |isa.operands| && slot < |isa.operands[op]| && 0 <= o && o + 1 + isa.Width(op) <= |buf|
    ensures OperandAt(isa, buf, o, op, slot) == Truncate(target, isa.operands[op][slot])
  {
  }

  /** The operand in `slot` of the jump instruction that starts at `s`
      points, after the patch, where its target moved; the SETUPTRY target 0
      stays 0. The value is truncated to the operand's width, as
      MakeInstruction truncates it. */
  lemma FinalJump(isa: Isa, f: PatchFunc, insts: seq<byte>, s: nat, slot: nat)
    requires WellFormed(isa, insts, 0) && Generated(isa, f, insts)
    requires IsStart(isa, insts, 0, s) && Fits(isa, insts, s) && JumpSlot(isa, insts[s], slot)
    ensures var g, out, op := GenFrom(isa, f, insts, 0), Final(isa, f, insts), insts[s];
      var o := Relocated(s, g.plan);
      && slot < |isa.operands[op]| && 0 <= o && o + 1 + isa.Width(op) <= |out|
      && OperandAt(isa, out, o, op, slot)
         == Truncate(NewTarget(isa, op, CursorAt(isa, insts, s).operands[slot], g.plan), isa.operands[op][slot])
  {
    var g, out := GenFrom(isa, f, insts, 0), Final(isa, f, insts);
    var i := RecordFor(isa, insts, s, slot);
    FinalHolds(isa, f, insts, i);
    MovedRecordAt(isa, f, insts, i);
    HeldOperand(isa, out, MovedRecords(isa, f, insts)[i], Relocated(s, g.plan), insts[s], slot,
      NewTarget(isa, insts[s], CursorAt(isa, insts, s).operands[slot], g.plan));
  }

  /** A patched function grows by exactly the inserted bytes, and every
      instruction keeps its opcode at its relocated position; an instruction
      without jump targets is copied unchanged. */
  lemma PatchLayout(isa: Isa, f: PatchFunc, insts: seq<byte>, sm: map<int, int>, order: seq<int>, s: nat)
    requires isa.Valid() && WellFormed(isa, insts, 0) && Enumerates(order, sm)
    requires PatchFunction(isa, f, insts, sm, order).err.None?
    requires IsStart(isa, insts, 0, s) && Fits(isa, insts, s)
    ensures var r, plan := PatchFunction(isa, f, insts, sm, order), GenFrom(isa, f, insts, 0).plan;
      var o, n := Relocated(s, plan), NextPos(isa, insts, s) - s;
      && |r.insts| == |insts| + Total(plan) && r.inserted == |plan|
      && 0 <= o && o + n <= |r.insts| && r.insts[o] == insts[s]
      && (!isa.IsSingleJump(insts[s]) && insts[s] != isa.opSetupTry ==>
            r.insts[o..o + n] == insts[s..s + n])
  {
    PatchFunctionOk(isa, f, insts, sm, order);
    FinalLayout(isa, f, insts, s);
  }

  /** Every moved jump operand of a patched function holds its relocated
      target, written in the operand's width. */
  lemma PatchJumps(isa: Isa, f: PatchFunc, insts: seq<byte>, sm: map<int, int>, order: seq<int>, s: nat, slot: nat)
    requires isa.Valid() && WellFormed(isa, insts, 0) && Enumerates(order, sm)
    requires PatchFunction(isa, f, insts, sm, order).err.None?
    requires IsStart(isa, insts, 0, s) && Fits(isa, insts, s) && JumpSlot(isa, insts[s], slot)
    ensures var r, plan, op := PatchFunction(isa, f, insts, sm, order), GenFrom(isa, f, insts, 0).plan, insts[s];
      var o := Relocated(s, plan);
      && slot < |isa.operands[op]| && 0 <= o && o + 1 + isa.Width(op) <= |r.insts|
      && OperandAt(isa, r.insts, o, op, slot)
         == Truncate(NewTarget(isa, op, CursorAt(isa, insts, s).operands[slot], plan), isa.operands[op][slot])
  {
    PatchFunctionOk(isa, f, insts, sm, order);
    FinalJump(isa, f, insts, s, slot);
  }

  /** No moved record rewrites a byte of the bytes inserted for an
      insertion. */
  lemma MovedRecordsAround(isa: Isa, f: PatchFunc, insts: seq<byte>, ins: Insertion)
    requires WellFormed(isa, insts, 0) && Generated(isa, f, insts)
    requires ins in GenFrom(isa, f, insts, 0).plan
    ensures var e := Relocated(ins.at, GenFrom(isa, f, insts, 0).plan);
      forall m :: m in MovedRecords(isa, f, insts) && m.updated && m.opcode < |isa.operands| ==>
        End(isa, m) <= e - ins.size || e <= m.pos
  {
    var plan := GenFrom(isa, f, insts, 0).plan;
    var e := Relocated(ins.at, plan);
    GenPlanExact(isa, f, insts, 0, ins);
    forall m | m in MovedRecords(isa, f, insts) && m.updated && m.opcode < |isa.operands|
      ensures End(isa, m) <= e - ins.size || e <= m.pos
    {
      var r := MovedRecordOrigin(isa, f, insts, m);
      if r.pos < ins.at {
        StartsApart(isa, insts, 0, r.pos, ins.at);
        DisplacementSplit(r.pos, ins.at, plan);
        SizeInAtLeast(plan, r.pos, ins.at, ins);
      } else {
        RelocatedSpread(ins.at, r.pos, plan);
      }
    }
  }

  /** The bytes the policy returned for an insertion survive updateJumps
      right before the relocated instruction they were inserted for. */
  lemma FinalBlob(isa: Isa, f: PatchFunc, insts: seq<byte>, ins: Insertion)
    requires WellFormed(isa, insts, 0) && Generated(isa, f, insts)
    requires ins in GenFrom(isa, f, insts, 0).plan
    ensures Fits(isa, insts, ins.at) && f(CursorAt(isa, insts, ins.at)).0 == PatchInsertBefore
    ensures var out, e := Final(isa, f, insts), Relocated(ins.at, GenFrom(isa, f, insts, 0).plan);
      && ins.size <= e <= |out|
      && out[e - ins.size..e] == f(CursorAt(isa, insts, ins.at)).1
  {
    GeneratedBlob(isa, f, insts, ins);
    FinalAround(isa, f, insts, ins);
  }

  /** updateJumps leaves the bytes inserted for an insertion as generate
      made them. */
  lemma FinalAround(isa: Isa, f: PatchFunc, insts: seq<byte>, ins: Insertion)
    requires WellFormed(isa, insts, 0) && Generated(isa, f, insts)
    requires ins in GenFrom(isa, f, insts, 0).plan
    requires var g := GenFrom(isa, f, insts, 0);
      ins.size <= Relocated(ins.at, g.plan) <= |g.out|
    ensures var g := GenFrom(isa, f, insts, 0);
      var e := Relocated(ins.at, g.plan);
      |Final(isa, f, insts)| == |g.out| && Final(isa, f, insts)[e - ins.size..e] == g.out[e - ins.size..e]
  {
    MovedRecordsAround(isa, f, insts, ins);
    FinalKeeps(isa, f, insts, Relocated(ins.at, GenFrom(isa, f, insts, 0).plan) - ins.size, ins.size);
  }

  /** Every insertion of a patched function holds, right before the
      relocated instruction it was made for, the bytes the policy returned
      for that instruction. */
  lemma PatchBlobs(isa: Isa, f: PatchFunc, insts: seq<byte>, sm: map<int, int>, order: seq<int>, ins: Insertion)
    requires isa.Valid() && WellFormed(isa, insts, 0) && Enumerates(order, sm)
    requires PatchFunction(isa, f, insts, sm, order).err.None?
    requires ins in GenFrom(isa, f, insts, 0).plan
    ensures Fits(isa, insts, ins.at) && f(CursorAt(isa, insts, ins.at)).0 == PatchInsertBefore
    ensures var r, e := PatchFunction(isa, f, insts, sm, order), Relocated(ins.at, GenFrom(isa, f, insts, 0).plan);
      && ins.size <= e <= |r.insts|
      && r.insts[e - ins.size..e] == f(CursorAt(isa, insts, ins.at)).1
  {
    PatchFunctionOk(isa, f, insts, sm, order);
    FinalBlob(isa, f, insts, ins);
  }

  /** The rebuilt source map: each old entry under its relocated position,
      and nothing else. */
  lemma MovedSourceMap(sm: map<int, int>, order: seq<int>, plan: seq<Insertion>)
    requires Enumerates(order, sm) && Increasing(plan)
    ensures var m := Zip(FoldKeys(order, ToOutput(plan)), ValuesOf(order, sm));
      && (forall k :: k in sm ==> Relocated(k, plan) in m && m[Relocated(k, plan)] == sm[k])
      && (forall k :: k in m ==> exists j :: j in sm && k == Relocated(j, plan))
  {
    var keys, values := FoldKeys(order, ToOutput(plan)), ValuesOf(order, sm);
    var m := Zip(keys, values);
    forall i | 0 <= i < |order| ensures keys[i] == Relocated(order[i], plan) {
      NetEffect(order[i], plan);
    }
    forall i, j | 0 <= i < j < |keys| ensures keys[i] != keys[j] {
      if order[i] < order[j] {
        RelocatedSpread(order[i], order[j], plan);
      } else {
        RelocatedSpread(order[j], order[i], plan);
      }
    }
    ZipKeys(keys, values);
    ZipValues(keys, values);
    forall k | k in sm ensures Relocated(k, plan) in m && m[Relocated(k, plan)] == sm[k] {
      var i :| 0 <= i < |order| && order[i] == k;
      assert keys[i] == Relocated(k, plan);
    }
    forall k | k in m ensures exists j :: j in sm && k == Relocated(j, plan) {
      var i :| 0 <= i < |keys| && keys[i] == k;
      assert order[i] in sm && k == Relocated(order[i], plan);
    }
  }

  /** The source map of a patched function is the old one with every key
      relocated. */
  lemma PatchSourceMap(isa: Isa, f: PatchFunc, insts: seq<byte>, sm: map<int, int>, order: seq<int>)
    requires isa.Valid() && WellFormed(isa, insts, 0) && Enumerates(order, sm)
    requires PatchFunction(isa, f, insts, sm, order).err.None?
    ensures var m, plan := PatchFunction(isa, f, insts, sm, order).sourceMap, GenFrom(isa, f, insts, 0).plan;
      && (forall k :: k in sm ==> Relocated(k, plan) in m && m[Relocated(k, plan)] == sm[k])
      && (forall k :: k in m ==> exists j :: j in sm && k == Relocated(j, plan))
  {
    PatchFunctionOk(isa, f, insts, sm, order);
    GenPlanOrdered(isa, f, insts, 0);
    MovedSourceMap(sm, order, GenFrom(isa, f, insts, 0).plan);
  }

  /** A patch that inserts nothing leaves the instructions and the source
      map as they were. */
  lemma PatchUnchanged(isa: Isa, f: PatchFunc, insts: seq<byte>, sm: map<int, int>, order: seq<int>)
    requires isa.Valid() && WellFormed(isa, insts, 0) && Enumerates(order, sm)
    requires PatchFunction(isa, f, insts, sm, order).err.None?
    requires PatchFunction(isa, f, insts, sm, order).inserted == 0
    ensures var r := PatchFunction(isa, f, insts, sm, order);
      && r.insts == insts
      && (forall k :: k in sm ==> k in r.sourceMap && r.sourceMap[k] == sm[k])
      && (forall k :: k in r.sourceMap ==> k in sm)
  {
    PatchFunctionOk(isa, f, insts, sm, order);
    var g := GenFrom(isa, f, insts, 0);
    assert g.out == insts by {
      GenIdentity(isa, f, insts, 0);
      assert insts[0..] == insts;
    }
    assert Final(isa, f, insts) == g.out by {
      var rs := RecordsFrom(isa, insts, 0);
      RecordsFromRecorded(isa, insts, 0);
      assert ToOutput(g.plan) == [];
      forall m | m in MovedRecords(isa, f, insts) ensures !m.updated {
        var i :| 0 <= i < |rs| && MovedRecords(isa, f, insts)[i] == m;
        assert rs[i] in rs;
      }
      MovedRecordsReady(isa, f, insts);
      UpdateFromSkipped(isa, MovedRecords(isa, f, insts), g.out);
    }
    PatchSourceMap(isa, f, insts, sm, order);
    forall k ensures Relocated(k, g.plan) == k {
      assert Displacement(k, g.plan) == 0;
    }
  }
}
