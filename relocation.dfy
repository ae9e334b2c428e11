/** Position bookkeeping of patcher/patcher.go: what one insertion does to a
    position (posJump.InsertAt, sourceMapper.InsertAt), and the net effect of
    a whole run of insertions, stated independently as a displacement. */
module Relocation {
  import opened Ugo

  /** `size` bytes inserted before position `at`. */
  datatype Insertion = Insertion(at: nat, size: nat)

  /** A position after one insertion: positions at or after it move. */
  function ShiftPos(x: int, ins: Insertion): (r: int)
    ensures x < ins.at ==> r == x
    ensures x >= ins.at ==> r == x + ins.size
  {
    if x >= ins.at then x + ins.size else x
  }

  /** A position after a run of insertions, applied in order. */
  function FoldPos(x: int, outs: seq<Insertion>): int {
    if outs == [] then x
    else ShiftPos(FoldPos(x, outs[..|outs| - 1]), outs[|outs| - 1])
  }

  /** Bytes inserted in all. */
  function Total(plan: seq<Insertion>): nat {
    if plan == [] then 0
    else Total(plan[..|plan| - 1]) + plan[|plan| - 1].size
  }

  /** Bytes inserted before or at input position `x`. */
  function Displacement(x: int, plan: seq<Insertion>): nat {
    if plan == [] then 0
    else
      var last := plan[|plan| - 1];
      Displacement(x, plan[..|plan| - 1]) + (if last.at <= x then last.size else 0)
  }

  /** Where input position `x` lands in the output: after every insertion
      made before or at it. */
  function Relocated(x: int, plan: seq<Insertion>): int {
    x + Displacement(x, plan)
  }

  /** Insertions planned in input coordinates, in increasing order. */
  predicate Increasing(plan: seq<Insertion>) {
    forall i, j :: 0 <= i < j < |plan| ==> plan[i].at < plan[j].at
  }

  /** The same insertions in output coordinates, as the patcher performs
      them: each one lands after the bytes already inserted. */
  function ToOutput(plan: seq<Insertion>): (r: seq<Insertion>)
    ensures |r| == |plan|
  {
    if plan == [] then []
    else
      var init, last := plan[..|plan| - 1], plan[|plan| - 1];
      ToOutput(init) + [Insertion(last.at + Total(init), last.size)]
  }

  lemma {:induction false} DisplacementAtMost(x: int, plan: seq<Insertion>)
    ensures Displacement(x, plan) <= Total(plan)
  {
    if plan != [] {
      DisplacementAtMost(x, plan[..|plan| - 1]);
    }
  }

  /** When every insertion is at or before `x`, all of them count. */
  lemma {:induction false} DisplacementAll(x: int, plan: seq<Insertion>)
    requires forall i :: 0 <= i < |plan| ==> plan[i].at <= x
    ensures Displacement(x, plan) == Total(plan)
  {
    if plan != [] {
      DisplacementAll(x, plan[..|plan| - 1]);
    }
  }

  /** When every insertion is after `x`, none of them counts. */
  lemma {:induction false} DisplacementNone(x: int, plan: seq<Insertion>)
    requires forall i :: 0 <= i < |plan| ==> plan[i].at > x
    ensures Displacement(x, plan) == 0
  {
    if plan != [] {
      DisplacementNone(x, plan[..|plan| - 1]);
    }
  }

  lemma {:induction false} DisplacementMonotone(x: int, y: int, plan: seq<Insertion>)
    requires x <= y
    ensures Displacement(x, plan) <= Displacement(y, plan)
  {
    if plan != [] {
      DisplacementMonotone(x, y, plan[..|plan| - 1]);
    }
  }

  lemma {:induction false} DisplacementConcat(x: int, a: seq<Insertion>, b: seq<Insertion>)
    ensures Displacement(x, a + b) == Displacement(x, a) + Displacement(x, b)
    ensures Total(a + b) == Total(a) + Total(b)
  {
    if b != [] {
      var n := |b|;
      assert (a + b)[..|a + b| - 1] == a + b[..n - 1];
      DisplacementConcat(x, a, b[..n - 1]);
    } else {
      assert a + b == a;
    }
  }

  /** Bytes inserted after input position `x` and before or at `y`. */
  function SizeIn(plan: seq<Insertion>, x: int, y: int): nat {
    if plan == [] then 0
    else
      var last := plan[|plan| - 1];
      SizeIn(plan[..|plan| - 1], x, y) + (if x < last.at <= y then last.size else 0)
  }

  /** The displacement grows between two positions by the bytes inserted
      between them. */
  lemma {:induction false} DisplacementSplit(x: int, y: int, plan: seq<Insertion>)
    requires x <= y
    ensures Displacement(y, plan) == Displacement(x, plan) + SizeIn(plan, x, y)
  {
    if plan != [] {
      DisplacementSplit(x, y, plan[..|plan| - 1]);
    }
  }

  lemma {:induction false} SizeInNone(plan: seq<Insertion>, x: int, y: int)
    requires forall i :: 0 <= i < |plan| ==> !(x < plan[i].at <= y)
    ensures SizeIn(plan, x, y) == 0
  {
    if plan != [] {
      SizeInNone(plan[..|plan| - 1], x, y);
    }
  }

  lemma {:induction false} SizeInAtLeast(plan: seq<Insertion>, x: int, y: int, ins: Insertion)
    requires ins in plan && x < ins.at <= y
    ensures SizeIn(plan, x, y) >= ins.size
  {
    var n := |plan|;
    if plan[n - 1] != ins {
      assert ins in plan[..n - 1] by {
        var k :| 0 <= k < n && plan[k] == ins;
        assert plan[..n - 1][k] == ins;
      }
      SizeInAtLeast(plan[..n - 1], x, y, ins);
    }
  }

  /** When the only insertion between `x` and `y` is one at `y`, the bytes
      inserted between them are that insertion's. */
  lemma {:induction false} SizeInOne(plan: seq<Insertion>, x: int, y: int, ins: Insertion)
    requires Increasing(plan) && ins in plan && x < ins.at == y
    requires forall i :: 0 <= i < |plan| && x < plan[i].at <= y ==> plan[i].at == y
    ensures SizeIn(plan, x, y) == ins.size
  {
    var n := |plan|;
    var init := plan[..n - 1];
    if plan[n - 1].at == y {
      assert plan[n - 1] == ins by {
        var k :| 0 <= k < n && plan[k] == ins;
      }
      SizeInNone(init, x, y);
    } else {
      assert ins in init by {
        var k :| 0 <= k < n && plan[k] == ins;
        assert init[k] == ins;
      }
      SizeInOne(init, x, y, ins);
    }
  }

  /** Relocation keeps order and never brings two positions closer. */
  lemma RelocatedSpread(x: int, y: int, plan: seq<Insertion>)
    requires x <= y
    ensures Relocated(y, plan) - Relocated(x, plan) >= y - x
  {
    DisplacementMonotone(x, y, plan);
  }

  /** Net effect: performing the insertions one by one, each in output
      coordinates, moves a position exactly as far as the bytes inserted
      before or at it. */
  lemma {:induction false} NetEffect(x: int, plan: seq<Insertion>)
    requires Increasing(plan)
    ensures FoldPos(x, ToOutput(plan)) == Relocated(x, plan)
  {
    if plan != [] {
      var n := |plan|;
      var init, last := plan[..n - 1], plan[n - 1];
      var outs := ToOutput(plan);
      assert outs[..n - 1] == ToOutput(init);
      NetEffect(x, init);
      if last.at <= x {
        DisplacementAll(x, init);
      } else {
        DisplacementAtMost(x, init);
      }
    }
  }

  /** posJump: a recorded jump operand — the instruction's position, its
      target, which operand slot holds it, and whether an insertion has moved
      either of them. */
  datatype PosJump = PosJump(pos: int, jump: int, opcode: byte, operand: nat, updated: bool)
  {
    /** The "no handler" target 0 of SETUPTRY, which insertions leave alone. */
    predicate IsSentinel(isa: Isa) {
      opcode == isa.opSetupTry && jump == 0
    }

    /** posJump.InsertAt: the record after `size` bytes are inserted at `at`. */
    function InsertAt(isa: Isa, ins: Insertion): (r: PosJump)
      ensures r.opcode == opcode && r.operand == operand
      ensures updated ==> r.updated
      ensures !r.updated ==> r.pos == pos && r.jump == jump
      ensures r.IsSentinel(isa) <==> IsSentinel(isa)
    {
      var moved := pos >= ins.at;
      var pos', updated' := if moved then pos + ins.size else pos, updated || moved;
      if jump < ins.at || IsSentinel(isa) then PosJump(pos', jump, opcode, operand, updated')
      else PosJump(pos', jump + ins.size, opcode, operand, true)
    }
  }

  /** A record after a run of insertions, applied in order. */
  function FoldRecord(isa: Isa, r: PosJump, outs: seq<Insertion>): PosJump {
    if outs == [] then r
    else FoldRecord(isa, r, outs[..|outs| - 1]).InsertAt(isa, outs[|outs| - 1])
  }

  lemma {:induction false} FoldRecordSentinel(isa: Isa, r: PosJump, outs: seq<Insertion>)
    ensures FoldRecord(isa, r, outs).IsSentinel(isa) <==> r.IsSentinel(isa)
  {
    if outs != [] {
      FoldRecordSentinel(isa, r, outs[..|outs| - 1]);
    }
  }

  /** Each field of a record after a run of insertions: the position moves as
      any position does, the target too unless it is the SETUPTRY sentinel,
      and a record left unflagged is unchanged. */
  lemma {:induction false} FoldRecordFields(isa: Isa, r: PosJump, outs: seq<Insertion>)
    ensures var f := FoldRecord(isa, r, outs);
      && f.pos == FoldPos(r.pos, outs)
      && f.jump == (if r.IsSentinel(isa) then r.jump else FoldPos(r.jump, outs))
      && f.opcode == r.opcode && f.operand == r.operand
      && (r.updated ==> f.updated)
      && (!f.updated ==> f.pos == r.pos && f.jump == r.jump)
  {
    if outs != [] {
      var init := outs[..|outs| - 1];
      FoldRecordFields(isa, r, init);
      var g := FoldRecord(isa, r, init);
      assert g.IsSentinel(isa) <==> r.IsSentinel(isa) by {
        FoldRecordSentinel(isa, r, init);
      }
    }
  }

  /** The net effect on a record of the insertions of a plan. */
  lemma RecordNetEffect(isa: Isa, r: PosJump, plan: seq<Insertion>)
    requires Increasing(plan)
    ensures var f := FoldRecord(isa, r, ToOutput(plan));
      && f.pos == Relocated(r.pos, plan)
      && f.jump == (if r.IsSentinel(isa) then 0 else Relocated(r.jump, plan))
      && f.opcode == r.opcode && f.operand == r.operand
      && (!f.updated ==> f.pos == r.pos && f.jump == r.jump)
  {
    FoldRecordFields(isa, r, ToOutput(plan));
    NetEffect(r.pos, plan);
    NetEffect(r.jump, plan);
  }

  /** The last value written for a key, as a Go map built by assigning
      keys[i] = values[i] in index order. */
  function Zip(keys: seq<int>, values: seq<int>): map<int, int>
    requires |keys| == |values|
  {
    if keys == [] then map[]
    else
      var n := |keys|;
      Zip(keys[..n - 1], values[..n - 1])[keys[n - 1] := values[n - 1]]
  }

  /** The zipped map has exactly the given keys. */
  lemma {:induction false} ZipKeys(keys: seq<int>, values: seq<int>)
    requires |keys| == |values|
    ensures forall k :: k in Zip(keys, values) <==> k in keys
  {
    if keys != [] {
      var n := |keys|;
      ZipKeys(keys[..n - 1], values[..n - 1]);
      assert keys == keys[..n - 1] + [keys[n - 1]];
    }
  }

  /** When no key repeats, each key maps to the value beside it. */
  lemma {:induction false} ZipValues(keys: seq<int>, values: seq<int>)
    requires |keys| == |values|
    requires forall i, j :: 0 <= i < j < |keys| ==> keys[i] != keys[j]
    ensures forall i :: 0 <= i < |keys| ==> keys[i] in Zip(keys, values) && Zip(keys, values)[keys[i]] == values[i]
  {
    ZipKeys(keys, values);
    if keys != [] {
      var n := |keys|;
      ZipKeys(keys[..n - 1], values[..n - 1]);
      ZipValues(keys[..n - 1], values[..n - 1]);
      forall i | 0 <= i < n - 1 ensures keys[i] in keys[..n - 1] && keys[i] != keys[n - 1] {
        assert keys[..n - 1][i] == keys[i];
      }
    }
  }

  /** `order` lists every key of `m` once. */
  predicate Enumerates(order: seq<int>, m: map<int, int>) {
    && (forall i, j :: 0 <= i < j < |order| ==> order[i] != order[j])
    && (forall k :: k in m ==> k in order)
    && (forall i :: 0 <= i < |order| ==> order[i] in m)
  }

  /** sourceMapper: a source map held as parallel key and value slices so
      that keys can be moved in place. */
  class SourceMapper {
    var keys: seq<int>
    var values: seq<int>

    ghost predicate Valid()
      reads this
    {
      |keys| == |values|
    }

    constructor ()
      ensures Valid() && keys == [] && values == []
    {
      keys, values := [], [];
    }

    /** Loads a source map. Go ranges over a map in an unspecified order;
        `order` is that order, one of the enumerations of its keys. */
    method Reset(sourceMap: map<int, int>, order: seq<int>)
      requires Enumerates(order, sourceMap)
      modifies this
      ensures Valid() && keys == order
      ensures forall i :: 0 <= i < |keys| ==> values[i] == sourceMap[keys[i]]
    {
      keys, values := [], [];
      for i := 0 to |order|
        invariant keys == order[..i] && |values| == i
        invariant forall j :: 0 <= j < i ==> values[j] == sourceMap[keys[j]]
      {
        keys, values := keys + [order[i]], values + [sourceMap[order[i]]];
      }
    }

    /** Moves every key at or after `at` by `size`. */
    method InsertAt(ins: Insertion)
      requires Valid()
      modifies this
      ensures Valid() && values == old(values) && |keys| == |old(keys)|
      ensures forall i :: 0 <= i < |keys| ==> keys[i] == ShiftPos(old(keys)[i], ins)
    {
      var i := 0;
      while i < |keys|
        invariant 0 <= i <= |keys| == |old(keys)| && values == old(values)
        invariant forall j :: 0 <= j < i ==> keys[j] == ShiftPos(old(keys)[j], ins)
        invariant forall j :: i <= j < |keys| ==> keys[j] == old(keys)[j]
      {
        if keys[i] >= ins.at {
          keys := keys[i := keys[i] + ins.size];
        }
        i := i + 1;
      }
    }

    /** The source map with the current keys. */
    method MakeSourceMap() returns (m: map<int, int>)
      requires Valid()
      ensures m == Zip(keys, values)
    {
      m := map[];
      for i := 0 to |keys|
        invariant m == Zip(keys[..i], values[..i])
      {
        assert keys[..i + 1][..i] == keys[..i] && values[..i + 1][..i] == values[..i];
        m := m[keys[i] := values[i]];
      }
      assert keys[..|keys|] == keys && values[..|values|] == values;
    }
  }
}
