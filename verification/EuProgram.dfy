/** Programs as the walks over the instruction store see them: a run of 16-byte
    and 8-byte instructions, and what compaction makes of such a run.  Offsets
    are counted in 8-byte chunks. */
module EuProgram {
  import opened Digits
  import opened EuStructs
  import opened EuCodec

  datatype Raw = Full(insn: Insn) | Short(chunk: Chunk)

  function Header(r: Raw): u32 {
    match r
    case Full(i) => i.d0
    case Short(c) => c.lo
  }

  function Op(r: Raw): nat {
    Opcode(Header(r))
  }

  function Size(r: Raw): nat {
    if r.Full? then 2 else 1
  }

  /** The compaction flag tells the size. */
  predicate Proper(r: Raw) {
    CmptControl(Header(r)) <==> r.Short?
  }

  function Encode(r: Raw): (s: seq<Chunk>)
    ensures |s| == Size(r)
  {
    match r
    case Full(i) => [Chunk(i.d0, i.d1), Chunk(i.d2, i.d3)]
    case Short(c) => [c]
  }

  function Flatten(p: seq<Raw>): seq<Chunk> {
    if p == [] then [] else Encode(p[0]) + Flatten(p[1..])
  }

  /** Offset of instruction k. */
  function Start(p: seq<Raw>, k: nat): nat
    requires k <= |p|
  {
    if k == 0 then 0 else Start(p, k - 1) + Size(p[k - 1])
  }

  lemma {:induction false} FlattenAppend(a: seq<Raw>, b: seq<Raw>)
    ensures Flatten(a + b) == Flatten(a) + Flatten(b)
  {
    if a == [] {
      assert a + b == b;
    } else {
      assert (a + b)[1..] == a[1..] + b;
      FlattenAppend(a[1..], b);
    }
  }

  lemma {:induction false} FlattenPrefix(p: seq<Raw>, k: nat)
    requires k <= |p|
    ensures |Flatten(p[..k])| == Start(p, k)
  {
    if k > 0 {
      FlattenPrefix(p, k - 1);
      assert p[..k] == p[..k - 1] + [p[k - 1]];
      FlattenAppend(p[..k - 1], [p[k - 1]]);
    }
  }

  /** Instruction k sits at its offset, and the rest of the program follows it. */
  lemma FlattenAt(p: seq<Raw>, k: nat)
    requires k < |p|
    ensures Start(p, k) + Size(p[k]) == Start(p, k + 1) <= |Flatten(p)|
    ensures Flatten(p)[Start(p, k)..] == Encode(p[k]) + Flatten(p[k + 1..])
    ensures Flatten(p)[Start(p, k)..][..Size(p[k])] == Encode(p[k])
  {
    FlattenPrefix(p, k);
    FlattenPrefix(p, k + 1);
    assert p == p[..k] + p[k..] && p[k..][1..] == p[k + 1..];
    FlattenAppend(p[..k], p[k..]);
    assert p == p[..k + 1] + p[k + 1..];
    FlattenAppend(p[..k + 1], p[k + 1..]);
  }

  lemma {:induction false} StartMonotone(p: seq<Raw>, j: nat, k: nat)
    requires j <= k <= |p|
    ensures k - j <= Start(p, k) - Start(p, j) <= 2 * (k - j)
  {
    if j < k {
      StartMonotone(p, j, k - 1);
    }
  }

  /** The offset of some instruction of the program. */
  ghost predicate IsStart(p: seq<Raw>, offset: int) {
    exists j: nat :: j < |p| && Start(p, j) == offset
  }

  ghost function IndexAt(p: seq<Raw>, offset: int): (j: nat)
    requires IsStart(p, offset)
    ensures j < |p| && Start(p, j) == offset
  {
    var j: nat :| j < |p| && Start(p, j) == offset;
    j
  }

  lemma StartInjective(p: seq<Raw>, j: nat, k: nat)
    requires j <= |p| && k <= |p| && Start(p, j) == Start(p, k)
    ensures j == k
  {
    if j <= k {
      StartMonotone(p, j, k);
    } else {
      StartMonotone(p, k, j);
    }
  }

  // ---- branches ----

  /** Branches whose distances are the jip and uip fields. */
  predicate UsesUipJip(gen: Gen, op: nat) {
    || op == OPCODE_BREAK || op == OPCODE_CONTINUE || op == OPCODE_HALT
    || (gen == 7 && (op == OPCODE_IF || op == OPCODE_ELSE || op == OPCODE_ENDIF || op == OPCODE_WHILE))
  }

  /** Branches whose distance is the gen6 jump_count field. */
  predicate UsesJumpCount(gen: Gen, op: nat) {
    gen == 6 && (op == OPCODE_IF || op == OPCODE_ELSE || op == OPCODE_ENDIF || op == OPCODE_WHILE)
  }

  predicate IsBranch(gen: Gen, op: nat) {
    UsesUipJip(gen, op) || UsesJumpCount(gen, op)
  }

  /** JMPI, BRD, IFF/BRC, CALL and RET also move the instruction pointer, but compaction
      does not look at their distances. */
  predicate OtherBranch(op: nat) {
    op == 32 || op == 33 || op == 35 || op == 44 || op == 45
  }

  predicate IsSend(op: nat) {
    op == OPCODE_SEND || op == OPCODE_SENDC
  }

  /** The ways execution can leave an instruction. */
  datatype Exit = Fall | AtJip | AtUip

  function Displacement(gen: Gen, r: Raw, e: Exit): int {
    if r.Short? || e == Fall || !IsBranch(gen, Op(r)) then Size(r)
    else if UsesJumpCount(gen, Op(r)) then JumpCount(r.insn.d1)
    else if e == AtJip then Jip(r.insn.d3) else Uip(r.insn.d3)
  }

  // ---- the layout after compaction: p is the program, q what compaction makes of each
  // ---- of its instructions, before padding and before distances are rewritten

  /** r' is r, or an 8-byte form of r. */
  predicate Shrinks(r: Raw, r': Raw) {
    r' == r || (r.Full? && r'.Short? && Op(r') == Op(r) && Proper(r'))
  }

  /** An end-of-thread message that is 16 bytes long. */
  predicate NeedsAlign(r: Raw) {
    r.Full? && IsSend(Op(r)) && EndOfThread(r.insn.d3)
  }

  /** The 8-byte NOP used as padding. */
  const ALIGN_NOP: Chunk := Chunk(OPCODE_NOP + 0x2000_0000, 0)

  /** Where a branch to instruction k arrives after compaction. */
  function NewBase(q: seq<Raw>, k: nat): nat
    requires k <= |q|
    decreases k, 0
  {
    if k == 0 then 0 else NewPos(q, k - 1) + Size(q[k - 1])
  }

  /** Whether padding goes in front of instruction k. */
  predicate Padded(q: seq<Raw>, k: nat)
    requires k < |q|
    decreases k, 1
  {
    NeedsAlign(q[k]) && NewBase(q, k) % 2 == 1
  }

  /** Where instruction k itself is after compaction. */
  function NewPos(q: seq<Raw>, k: nat): nat
    requires k < |q|
    decreases k, 2
  {
    NewBase(q, k) + if Padded(q, k) then 1 else 0
  }

  /** Padding NOPs inserted in front of the first k instructions. */
  function Nops(q: seq<Raw>, k: nat): nat
    requires k <= |q|
  {
    if k == 0 then 0 else Nops(q, k - 1) + if Padded(q, k - 1) then 1 else 0
  }

  /** Instructions compacted among the first k. */
  function Count(p: seq<Raw>, q: seq<Raw>, k: nat): int
    requires k <= |p| == |q|
  {
    if k == 0 then 0 else Count(p, q, k - 1) + if q[k - 1] != p[k - 1] then 1 else 0
  }

  /** What the layout needs of a program and its compacted instructions. */
  ghost predicate LayoutOk(gen: Gen, p: seq<Raw>, q: seq<Raw>) {
    && |p| == |q|
    && Start(p, |p|) % 2 == 0
    && (forall k :: 0 <= k < |p| ==> LayoutOkAt(gen, p, q[k], k))
  }

  ghost predicate LayoutOkAt(gen: Gen, p: seq<Raw>, r: Raw, k: nat)
    requires k < |p|
  {
    && Proper(p[k])
    && Shrinks(p[k], r)
    && !OtherBranch(Op(p[k]))
    // Branches and messages are long, and are not compacted.
    && (IsBranch(gen, Op(p[k])) || IsSend(Op(p[k])) ==> p[k].Full? && r == p[k])
    // End-of-thread messages start out 16-byte aligned.
    && (NeedsAlign(r) ==> Start(p, k) % 2 == 0)
    && BranchesInside(gen, p, k)
  }

  /** The branches of instruction k go to instructions of the program. */
  ghost predicate BranchesInside(gen: Gen, p: seq<Raw>, k: nat)
    requires k < |p|
  {
    IsBranch(gen, Op(p[k])) ==>
      && IsStart(p, Start(p, k) + Displacement(gen, p[k], AtJip))
      && IsStart(p, Start(p, k) + Displacement(gen, p[k], AtUip))
  }

  lemma {:induction false} NewBaseEquation(gen: Gen, p: seq<Raw>, q: seq<Raw>, k: nat)
    requires LayoutOk(gen, p, q) && k <= |p|
    ensures NewBase(q, k) == Start(p, k) - Count(p, q, k) + Nops(q, k)
  {
    if k > 0 {
      NewBaseEquation(gen, p, q, k - 1);
      assert LayoutOkAt(gen, p, q[k - 1], k - 1);
    }
  }

  /** The write offset stays at or behind the read offset, with room for padding. */
  lemma {:induction false} WriteBehindRead(gen: Gen, p: seq<Raw>, q: seq<Raw>, k: nat)
    requires LayoutOk(gen, p, q) && k <= |p|
    ensures NewBase(q, k) <= Start(p, k)
    ensures k < |p| ==> NewPos(q, k) <= Start(p, k)
  {
    if k > 0 {
      WriteBehindRead(gen, p, q, k - 1);
      assert LayoutOkAt(gen, p, q[k - 1], k - 1);
    }
    if k < |p| {
      assert LayoutOkAt(gen, p, q[k], k);
    }
  }

  /** Compaction keeps order, and two instructions never get further apart (padding aside). */
  lemma {:induction false} Distances(gen: Gen, p: seq<Raw>, q: seq<Raw>, j: nat, k: nat)
    requires LayoutOk(gen, p, q) && j <= k <= |p|
    ensures 0 <= Count(p, q, k) - Count(p, q, j)
    ensures k - j <= (Start(p, k) - Count(p, q, k)) - (Start(p, j) - Count(p, q, j))
    ensures Nops(q, j) <= Nops(q, k)
    ensures NewBase(q, j) + (k - j) <= NewBase(q, k)
  {
    if j < k {
      Distances(gen, p, q, j, k - 1);
      assert LayoutOkAt(gen, p, q[k - 1], k - 1);
    }
  }

  // ---- rewritten branch distances ----

  /** What the fix-up subtracts from a distance d of instruction k: the number of instructions
      compacted between k and the target. */
  ghost function CompactedBetween(p: seq<Raw>, q: seq<Raw>, k: nat, d: int): int
    requires k < |p| == |q| && IsStart(p, Start(p, k) + d)
  {
    Count(p, q, IndexAt(p, Start(p, k) + d)) - Count(p, q, k)
  }

  function Retarget(gen: Gen, r: Raw, jip: int, uip: int): Raw
    requires r.Full?
  {
    if UsesJumpCount(gen, Op(r)) then Full(r.insn.(d1 := WithJumpCount(r.insn.d1, jip)))
    else Full(r.insn.(d3 := BreakCont(jip, uip)))
  }

  /** Instruction k with its distances rewritten. */
  ghost function Fixed(gen: Gen, p: seq<Raw>, q: seq<Raw>, k: nat): Raw
    requires k < |p| == |q| && BranchesInside(gen, p, k)
  {
    if q[k].Short? || p[k].Short? || !IsBranch(gen, Op(p[k])) then q[k]
    else
      var jip := Displacement(gen, p[k], AtJip);
      var uip := Displacement(gen, p[k], AtUip);
      Retarget(gen, q[k], jip - CompactedBetween(p, q, k, jip), uip - CompactedBetween(p, q, k, uip))
  }

  lemma DisplacementRange(gen: Gen, r: Raw, e: Exit)
    ensures -0x8000 <= Displacement(gen, r, e) < 0x8000
  {
  }

  /** Subtracting the instructions compacted on the way neither flips nor lengthens a jump. */
  lemma DistanceShrinks(gen: Gen, p: seq<Raw>, q: seq<Raw>, k: nat, d: int)
    requires LayoutOk(gen, p, q) && k < |p| && IsStart(p, Start(p, k) + d)
    ensures var d' := d - CompactedBetween(p, q, k, d);
            (0 < d ==> 0 < d' <= d) && (d < 0 ==> d <= d' < 0) && (d == 0 ==> d' == 0)
  {
    hide LayoutOk, Start, Count, Nops, NewBase;
    var j := IndexAt(p, Start(p, k) + d);
    if j <= k {
      StartMonotone(p, j, k);
      Distances(gen, p, q, j, k);
    } else {
      StartMonotone(p, k, j);
      Distances(gen, p, q, k, j);
    }
  }

  /** A value that fits is what the 16-bit fields give back. */
  lemma DistanceFields(d1: u32, jip: int, uip: int)
    requires -0x8000 <= jip < 0x8000 && -0x8000 <= uip < 0x8000
    ensures Jip(BreakCont(jip, uip)) == jip && Uip(BreakCont(jip, uip)) == uip
    ensures JumpCount(WithJumpCount(d1, jip)) == jip
  {
    Field16RoundTrip(jip);
    Field16RoundTrip(uip);
    DivUnique(BreakCont(jip, uip), 0x1_0000, Field16(uip), Field16(jip));
    DivUnique(WithJumpCount(d1, jip), 0x1_0000, Field16(jip), d1 % 0x1_0000);
  }

  lemma RetargetDisplacement(gen: Gen, r: Raw, jip: int, uip: int)
    requires r.Full? && IsBranch(gen, Op(r))
    requires -0x8000 <= jip < 0x8000 && -0x8000 <= uip < 0x8000
    ensures Displacement(gen, Retarget(gen, r, jip, uip), AtJip) == jip
    ensures Displacement(gen, Retarget(gen, r, jip, uip), AtUip) == if UsesJumpCount(gen, Op(r)) then jip else uip
  {
    DistanceFields(r.insn.d1, jip, uip);
  }

  lemma FixedDisplacement(gen: Gen, p: seq<Raw>, q: seq<Raw>, k: nat, e: Exit)
    requires LayoutOk(gen, p, q) && k < |p| && IsBranch(gen, Op(p[k])) && e != Fall
    ensures BranchesInside(gen, p, k)
    ensures var d := Displacement(gen, p[k], e);
            Displacement(gen, Fixed(gen, p, q, k), e) == d - CompactedBetween(p, q, k, d)
  {
    assert LayoutOkAt(gen, p, q[k], k);
    var jip, uip := Displacement(gen, p[k], AtJip), Displacement(gen, p[k], AtUip);
    var newJip, newUip := jip - CompactedBetween(p, q, k, jip), uip - CompactedBetween(p, q, k, uip);
    assert Fixed(gen, p, q, k) == Retarget(gen, p[k], newJip, newUip);
    assert -0x8000 <= newJip < 0x8000 by {
      DistanceShrinks(gen, p, q, k, jip);
      DisplacementRange(gen, p[k], AtJip);
    }
    assert -0x8000 <= newUip < 0x8000 by {
      DistanceShrinks(gen, p, q, k, uip);
      DisplacementRange(gen, p[k], AtUip);
    }
    RetargetDisplacement(gen, p[k], newJip, newUip);
  }

  /** A rewritten distance is the old one less the instructions compacted on the way; it keeps
      its sign and does not grow, so the 16-bit field holds it. */
  lemma FixedDistance(gen: Gen, p: seq<Raw>, q: seq<Raw>, k: nat, e: Exit)
    requires LayoutOk(gen, p, q) && k < |p| && IsBranch(gen, Op(p[k])) && e != Fall
    ensures BranchesInside(gen, p, k)
    ensures var d := Displacement(gen, p[k], e);
            var d' := Displacement(gen, Fixed(gen, p, q, k), e);
            && IsStart(p, Start(p, k) + d)
            && d' == d - CompactedBetween(p, q, k, d)
            && (0 < d ==> 0 < d' <= d)
            && (d < 0 ==> d <= d' < 0)
            && (d == 0 ==> d' == 0)
  {
    hide Displacement, Fixed, LayoutOkAt, Start, CompactedBetween, IsBranch, Op;
    FixedDisplacement(gen, p, q, k, e);
    DistanceShrinks(gen, p, q, k, Displacement(gen, p[k], e));
  }

  /** From instruction k to instruction j there is the same number of padding NOPs in front of both, or
      only the padding of j itself is missing. */
  predicate OffsetsAgree(q: seq<Raw>, k: nat, j: nat)
    requires k < |q| && j < |q|
  {
    Nops(q, k) == Nops(q, j) || (Padded(q, j) && Nops(q, k) == Nops(q, j) + 1)
  }

  /** A rewritten branch arrives at its target, or at the padding in front of it, exactly when no padding
      was inserted between the two but that of the target. */
  lemma BranchArrives(gen: Gen, p: seq<Raw>, q: seq<Raw>, k: nat, e: Exit)
    requires LayoutOk(gen, p, q) && k < |p| && IsBranch(gen, Op(p[k])) && e != Fall
    ensures BranchesInside(gen, p, k)
    ensures IsStart(p, Start(p, k) + Displacement(gen, p[k], e))
    ensures var j := IndexAt(p, Start(p, k) + Displacement(gen, p[k], e));
            var to := NewPos(q, k) + Displacement(gen, Fixed(gen, p, q, k), e);
            to == NewBase(q, j) || to == NewPos(q, j) <==> OffsetsAgree(q, k, j)
  {
    hide Displacement, Fixed, Start, NewBase, Nops, Count;
    FixedDistance(gen, p, q, k, e);
    assert LayoutOkAt(gen, p, q[k], k);
    NewBaseEquation(gen, p, q, k);
    NewBaseEquation(gen, p, q, IndexAt(p, Start(p, k) + Displacement(gen, p[k], e)));
  }
}
