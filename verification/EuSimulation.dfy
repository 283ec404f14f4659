/** Execution of a program in the instruction store, and why compaction does not change it. */
module EuSimulation {
  import opened Options
  import Digits
  import opened EuStructs
  import opened EuCodec
  import opened EuProgram
  import opened EuLayout
  import opened EuCompact

  /** The instruction the machine fetches at an offset. */
  function Fetch(s: seq<Chunk>, ip: int): Option<Raw> {
    if ip < 0 || |s| <= ip then None
    else if CmptControl(s[ip].lo) then Some(Short(s[ip]))
    else if ip + 1 < |s| then Some(Full(InsnAt(s, ip)))
    else None
  }

  /** A branch with its distances blanked out. */
  function EraseDistances(gen: Gen, i: Insn): Insn {
    if UsesUipJip(gen, Opcode(i.d0)) then i.(d3 := 0)
    else if UsesJumpCount(gen, Opcode(i.d0)) then i.(d1 := i.d1 % 0x1_0000)
    else i
  }

  /** What executing an instruction does, apart from where it goes next: all its bits, except
      the distances of a branch and the bits an instruction with a compact form may lose. */
  function Effect(gen: Gen, r: Raw): Insn {
    match r
    case Short(c) => Uncompact(gen, c)
    case Full(i) => if TryCompact(gen, i).Some? then ClearUnencoded(gen, i) else EraseDistances(gen, i)
  }

  /** The instructions executed from ip on, when execution leaves each instruction but NOPs and
      the end-of-thread message by the given exits.  NOPs do nothing and are passed over. */
  function Run(gen: Gen, s: seq<Chunk>, ip: int, exits: seq<Exit>): seq<Raw>
    decreases |exits|, if 0 <= ip <= |s| then |s| - ip else 0
  {
    match Fetch(s, ip)
    case None => []
    case Some(r) =>
      if Op(r) == OPCODE_NOP then Run(gen, s, ip + Size(r), exits)
      else if NeedsAlign(r) || exits == [] then [r]
      else [r] + Run(gen, s, ip + Displacement(gen, r, exits[0]), exits[1..])
  }

  function Effects(gen: Gen, trace: seq<Raw>): seq<Insn> {
    if trace == [] then [] else [Effect(gen, trace[0])] + Effects(gen, trace[1..])
  }

  lemma FetchFlatten(p: seq<Raw>, k: nat)
    requires k < |p| && Proper(p[k])
    ensures Fetch(Flatten(p), Start(p, k)) == Some(p[k])
  {
    FlattenAt(p, k);
    var at := Flatten(p)[Start(p, k)..][..Size(p[k])];
    assert Flatten(p)[Start(p, k)] == at[0];
    if p[k].Full? {
      assert Flatten(p)[Start(p, k) + 1] == at[1];
    }
  }

  /** Instruction r between two runs of chunks is what is fetched there. */
  lemma FetchMiddle(before: seq<Chunk>, r: Raw, after: seq<Chunk>)
    requires Proper(r)
    ensures Fetch(before + Encode(r) + after, |before|) == Some(r)
  {
    var s := before + Encode(r) + after;
    assert s[|before|] == Encode(r)[0];
    if r.Full? {
      assert s[|before| + 1] == Encode(r)[1];
    }
  }

  ghost function OutputStore(gen: Gen, p: seq<Raw>, q: seq<Raw>): seq<Chunk>
    requires LayoutOk(gen, p, q)
  {
    Flatten(OutputOf(gen, p, q))
  }

  lemma LaidAt(q: seq<Raw>, f: seq<Raw>, k: nat, tail: seq<Raw>)
    requires k < |q| == |f|
    ensures Laid(q, f, |q|) + tail == (Laid(q, f, k) + Pad(q, k)) + [f[k]] + (LaidFrom(q, f, k + 1) + tail)
  {
    LaidSplit(q, f, k);
    assert LaidFrom(q, f, k) == Pad(q, k) + [f[k]] + LaidFrom(q, f, k + 1);
    Reassociate(Laid(q, f, k), Pad(q, k), [f[k]], LaidFrom(q, f, k + 1), tail);
  }

  lemma PadAt(q: seq<Raw>, f: seq<Raw>, k: nat, tail: seq<Raw>)
    requires k < |q| == |f| && Padded(q, k)
    ensures Laid(q, f, |q|) + tail ==
            Laid(q, f, k) + [Short(ALIGN_NOP)] + ([f[k]] + (LaidFrom(q, f, k + 1) + tail))
  {
    LaidAt(q, f, k, tail);
    assert Pad(q, k) == [Short(ALIGN_NOP)];
    Reassociate(Laid(q, f, k), Pad(q, k), [f[k]], LaidFrom(q, f, k + 1), tail);
  }

  lemma Reassociate<T>(a: seq<T>, b: seq<T>, c: seq<T>, d: seq<T>, e: seq<T>)
    ensures (a + (b + c + d)) + e == (a + b) + c + (d + e) == a + b + (c + (d + e))
  {
  }

  lemma FetchLaid(before: seq<Raw>, r: Raw, after: seq<Raw>, ip: nat)
    requires Proper(r) && |Flatten(before)| == ip
    ensures Fetch(Flatten(before + [r] + after), ip) == Some(r)
  {
    FlattenThree(before, r, after);
    FetchMiddle(Flatten(before), r, Flatten(after));
  }

  lemma OutputAt(gen: Gen, p: seq<Raw>, q: seq<Raw>, k: nat)
    requires LayoutOk(gen, p, q) && k < |p|
    ensures BranchesInside(gen, p, k)
    ensures Fetch(OutputStore(gen, p, q), NewPos(q, k)) == Some(Fixed(gen, p, q, k))
  {
    var f := FixedSeq(gen, p, q);
    FixedShape(gen, p, q, k);
    LaidLength(q, f, k);
    LaidAt(q, f, k, Tail(q));
    FetchLaid(Laid(q, f, k) + Pad(q, k), f[k], LaidFrom(q, f, k + 1) + Tail(q), NewPos(q, k));
  }

  lemma OutputPad(gen: Gen, p: seq<Raw>, q: seq<Raw>, k: nat)
    requires LayoutOk(gen, p, q) && k < |p| && Padded(q, k)
    ensures Fetch(OutputStore(gen, p, q), NewBase(q, k)) == Some(Short(ALIGN_NOP))
  {
    hide Flatten, Laid, LaidFrom, Fixed, Displacement, Fetch, Padded, NewBase, NewPos, LayoutOkAt, Tail, BranchesInside;
    var f := FixedSeq(gen, p, q);
    LaidLength(q, f, k);
    PadAt(q, f, k, Tail(q));
    FetchLaid(Laid(q, f, k), Short(ALIGN_NOP), [f[k]] + (LaidFrom(q, f, k + 1) + Tail(q)), NewBase(q, k));
  }

  lemma TailChunks(q: seq<Raw>)
    ensures Flatten(Tail(q)) == if Tail(q) != [] then Encode(Short(ALIGN_NOP)) else []
  {
    FlattenOne(Short(ALIGN_NOP));
  }

  lemma OutputEnd(gen: Gen, p: seq<Raw>, q: seq<Raw>)
    requires LayoutOk(gen, p, q)
    ensures |OutputStore(gen, p, q)| == NewBase(q, |p|) + |Tail(q)|
    ensures Tail(q) != [] ==> Fetch(OutputStore(gen, p, q), NewBase(q, |p|)) == Some(Short(ALIGN_NOP))
  {
    hide Flatten, Laid, Fixed, LayoutOkAt, NewBase, BranchesInside, Fetch;
    var f := FixedSeq(gen, p, q);
    LaidLength(q, f, |p|);
    FlattenAppend(Laid(q, f, |p|), Tail(q));
    TailChunks(q);
    if Tail(q) != [] {
      assert Flatten(Laid(q, f, |p|)) + Encode(Short(ALIGN_NOP)) + [] == OutputStore(gen, p, q);
      FetchMiddle(Flatten(Laid(q, f, |p|)), Short(ALIGN_NOP), []);
    }
  }

  /** Every rewritten branch arrives where it should (EuProgram.BranchArrives). */
  ghost predicate BranchesArrive(gen: Gen, p: seq<Raw>, q: seq<Raw>)
    requires LayoutOk(gen, p, q)
  {
    forall k: nat, e: Exit :: k < |p| && e != Fall && IsBranch(gen, Op(p[k])) ==> ArrivesAt(gen, p, q, k, e)
  }

  ghost predicate ArrivesAt(gen: Gen, p: seq<Raw>, q: seq<Raw>, k: nat, e: Exit)
    requires k < |p| == |q|
  {
    && IsStart(p, Start(p, k) + Displacement(gen, p[k], e))
    && OffsetsAgree(q, k, IndexAt(p, Start(p, k) + Displacement(gen, p[k], e)))
  }

  lemma SameFall(gen: Gen, p: seq<Raw>, q: seq<Raw>, k: nat, e: Exit)
    requires LayoutOk(gen, p, q) && k < |p| && (e == Fall || !IsBranch(gen, Op(p[k])))
    ensures BranchesInside(gen, p, k)
    ensures Displacement(gen, p[k], e) == Size(p[k])
    ensures Displacement(gen, Fixed(gen, p, q, k), e) == Size(q[k])
  {
    FixedShape(gen, p, q, k);
  }

  /** Offset ip of the compacted program is where instruction j is, or the padding in front of it. */
  predicate Lands(q: seq<Raw>, ip: int, j: nat)
    requires j <= |q|
  {
    ip == NewBase(q, j) || (j < |q| && ip == NewPos(q, j))
  }

  /** Where the two programs go from instruction k. */
  lemma SameStep(gen: Gen, p: seq<Raw>, q: seq<Raw>, k: nat, e: Exit) returns (j: nat)
    requires LayoutOk(gen, p, q) && BranchesArrive(gen, p, q) && k < |p|
    ensures BranchesInside(gen, p, k)
    ensures j <= |p|
    ensures Start(p, k) + Displacement(gen, p[k], e) == Start(p, j)
    ensures Lands(q, NewPos(q, k) + Displacement(gen, Fixed(gen, p, q, k), e), j)
  {
    hide Displacement, Fixed, NewBase, NewPos;
    if e == Fall || !IsBranch(gen, Op(p[k])) {
      SameFall(gen, p, q, k, e);
      j := k + 1;
      BehindInsn(q, k);
    } else {
      assert ArrivesAt(gen, p, q, k, e);
      BranchArrives(gen, p, q, k, e);
      j := IndexAt(p, Start(p, k) + Displacement(gen, p[k], e));
    }
  }

  lemma BehindInsn(q: seq<Raw>, k: nat)
    requires k < |q|
    ensures NewBase(q, k + 1) == NewPos(q, k) + Size(q[k])
  {
  }

  /** Rewriting distances changes nothing but the distances. */
  lemma RetargetEffect(gen: Gen, i: Insn, jip: int, uip: int)
    requires IsBranch(gen, Opcode(i.d0)) && (RefusedOpcode(Opcode(i.d0)) || HasImmediate(i))
    ensures Effect(gen, Retarget(gen, Full(i), jip, uip)) == Effect(gen, Full(i))
  {
    var i' := Retarget(gen, Full(i), jip, uip).insn;
    assert TryCompact(gen, i).None? && TryCompact(gen, i').None?;
    Digits.DivUnique(WithJumpCount(i.d1, jip), 0x1_0000, Field16(jip), i.d1 % 0x1_0000);
  }

  lemma ShrinkEffect(gen: Gen, r: Raw)
    ensures Effect(gen, Shrink(gen, r)) == Effect(gen, r)
  {
    if r.Full? && TryCompact(gen, r.insn).Some? {
      CompactRoundTrip(gen, r.insn);
    }
  }

  /** A branch does the same after its distances are rewritten. */
  lemma BranchEffect(gen: Gen, p: seq<Raw>, q: seq<Raw>, k: nat)
    requires LayoutOk(gen, p, q) && k < |p| && IsBranch(gen, Op(p[k])) && WellFormedAt(gen, p, k)
    ensures Effect(gen, Fixed(gen, p, q, k)) == Effect(gen, p[k])
  {
    hide Effect, Displacement, TryCompact;
    assert LayoutOkAt(gen, p, q[k], k);
    var jip, uip := Displacement(gen, p[k], AtJip), Displacement(gen, p[k], AtUip);
    RetargetEffect(gen, p[k].insn, jip - CompactedBetween(p, q, k, jip), uip - CompactedBetween(p, q, k, uip));
  }

  /** Instruction k does the same after compaction. */
  lemma SameEffect(gen: Gen, p: seq<Raw>, q: seq<Raw>, k: nat)
    requires WellFormed(gen, p) && q == ShrinkAll(gen, p) && LayoutOk(gen, p, q) && k < |p|
    ensures BranchesInside(gen, p, k)
    ensures Effect(gen, Fixed(gen, p, q, k)) == Effect(gen, p[k])
  {
    hide Effect, Shrink, TryCompact;
    FixedShape(gen, p, q, k);
    if IsBranch(gen, Op(p[k])) {
      BranchEffect(gen, p, q, k);
    } else {
      ShrinkAllAt(gen, p, k);
      ShrinkEffect(gen, p[k]);
    }
  }

  lemma EffectsCons(gen: Gen, a: Raw, x: seq<Raw>, b: Raw, y: seq<Raw>)
    requires Effect(gen, a) == Effect(gen, b) && Effects(gen, x) == Effects(gen, y)
    ensures Effects(gen, [a] + x) == Effects(gen, [b] + y)
  {
    assert ([a] + x)[1..] == x && ([b] + y)[1..] == y;
  }

  lemma SameKind(gen: Gen, p: seq<Raw>, q: seq<Raw>, k: nat)
    requires LayoutOk(gen, p, q) && k < |p|
    ensures BranchesInside(gen, p, k)
    ensures Op(Fixed(gen, p, q, k)) == Op(p[k]) && Size(Fixed(gen, p, q, k)) == Size(q[k])
    ensures NeedsAlign(Fixed(gen, p, q, k)) == NeedsAlign(p[k])
    ensures Padded(q, k) ==> NeedsAlign(p[k])
  {
    FixedShape(gen, p, q, k);
    assert LayoutOkAt(gen, p, q[k], k);
  }

  // One step of a run.

  lemma RunNop(gen: Gen, s: seq<Chunk>, ip: int, r: Raw, exits: seq<Exit>)
    requires Fetch(s, ip) == Some(r) && Op(r) == OPCODE_NOP
    ensures Run(gen, s, ip, exits) == Run(gen, s, ip + Size(r), exits)
  {
  }

  lemma RunStop(gen: Gen, s: seq<Chunk>, ip: int, r: Raw, exits: seq<Exit>)
    requires Fetch(s, ip) == Some(r) && Op(r) != OPCODE_NOP && (NeedsAlign(r) || exits == [])
    ensures Run(gen, s, ip, exits) == [r] + []
  {
  }

  lemma RunGo(gen: Gen, s: seq<Chunk>, ip: int, r: Raw, exits: seq<Exit>)
    requires Fetch(s, ip) == Some(r) && Op(r) != OPCODE_NOP && !NeedsAlign(r) && exits != []
    ensures Run(gen, s, ip, exits) == [r] + Run(gen, s, ip + Displacement(gen, r, exits[0]), exits[1..])
  {
  }

  /** From instruction k on, and from the place where it now begins, the two programs run the
      same instructions. */
  ghost predicate SameFrom(gen: Gen, p: seq<Raw>, q: seq<Raw>, k: nat, exits: seq<Exit>)
    requires LayoutOk(gen, p, q) && k <= |p|
  {
    Effects(gen, Run(gen, Flatten(p), Start(p, k), exits)) ==
    Effects(gen, Run(gen, OutputStore(gen, p, q), NewBase(q, k), exits))
  }

  lemma SameFromNop(gen: Gen, p: seq<Raw>, q: seq<Raw>, k: nat, exits: seq<Exit>)
    requires LayoutOk(gen, p, q) && k < |p| && Op(p[k]) == OPCODE_NOP
    requires SameFrom(gen, p, q, k + 1, exits)
    ensures SameFrom(gen, p, q, k, exits)
  {
    hide Effects, Fixed, Flatten, OutputStore, BranchesInside, Fetch;
    RunAt(gen, p, q, k, exits);
    SameKind(gen, p, q, k);
    RunNop(gen, Flatten(p), Start(p, k), p[k], exits);
    RunNop(gen, OutputStore(gen, p, q), NewPos(q, k), Fixed(gen, p, q, k), exits);
  }

  lemma SameFromStop(gen: Gen, p: seq<Raw>, q: seq<Raw>, k: nat, exits: seq<Exit>)
    requires LayoutOk(gen, p, q) && k < |p| && Op(p[k]) != OPCODE_NOP && (NeedsAlign(p[k]) || exits == [])
    requires BranchesInside(gen, p, k) && Effect(gen, Fixed(gen, p, q, k)) == Effect(gen, p[k])
    ensures SameFrom(gen, p, q, k, exits)
  {
    hide Effect, Effects, Fixed, Flatten, OutputStore, Fetch;
    RunAt(gen, p, q, k, exits);
    SameKind(gen, p, q, k);
    RunStop(gen, Flatten(p), Start(p, k), p[k], exits);
    RunStop(gen, OutputStore(gen, p, q), NewPos(q, k), Fixed(gen, p, q, k), exits);
    EffectsCons(gen, p[k], [], Fixed(gen, p, q, k), []);
  }

  /** Control that lands at instruction j of the compacted program runs as from its padding on. */
  lemma RunLands(gen: Gen, p: seq<Raw>, q: seq<Raw>, ip: int, j: nat, exits: seq<Exit>)
    requires LayoutOk(gen, p, q) && j <= |p| && Lands(q, ip, j)
    ensures Run(gen, OutputStore(gen, p, q), ip, exits) == Run(gen, OutputStore(gen, p, q), NewBase(q, j), exits)
  {
    hide Run, OutputStore, LayoutOkAt, NewBase, NewPos, Fetch, BranchesInside, Fixed;
    if j < |p| {
      RunAt(gen, p, q, j, exits);
    }
  }

  lemma SameFromGo(gen: Gen, p: seq<Raw>, q: seq<Raw>, k: nat, exits: seq<Exit>, j: nat)
    requires LayoutOk(gen, p, q) && k < |p| && Op(p[k]) != OPCODE_NOP && !NeedsAlign(p[k]) && exits != []
    requires BranchesInside(gen, p, k) && Effect(gen, Fixed(gen, p, q, k)) == Effect(gen, p[k])
    requires j <= |p| && SameFrom(gen, p, q, j, exits[1..])
    requires Start(p, k) + Displacement(gen, p[k], exits[0]) == Start(p, j)
    requires Lands(q, NewPos(q, k) + Displacement(gen, Fixed(gen, p, q, k), exits[0]), j)
    ensures SameFrom(gen, p, q, k, exits)
  {
    hide Effect, Effects, Displacement, Fixed, Flatten, OutputStore, Fetch, Run, LayoutOkAt, Lands, NewBase, NewPos,
         Start, NeedsAlign, BranchesInside;
    var s, o, r, r' := Flatten(p), OutputStore(gen, p, q), p[k], Fixed(gen, p, q, k);
    var to := NewPos(q, k) + Displacement(gen, r', exits[0]);
    RunAt(gen, p, q, k, exits);
    SameKind(gen, p, q, k);
    RunGo(gen, s, Start(p, k), r, exits);
    RunGo(gen, o, NewPos(q, k), r', exits);
    RunLands(gen, p, q, to, j, exits[1..]);
    EffectsCons(gen, r, Run(gen, s, Start(p, j), exits[1..]), r', Run(gen, o, to, exits[1..]));
  }

  /** Whatever exits execution takes, the two programs run the same instructions. */
  lemma {:induction false} SameRun(gen: Gen, p: seq<Raw>, q: seq<Raw>, k: nat, exits: seq<Exit>)
    requires WellFormed(gen, p) && q == ShrinkAll(gen, p) && LayoutOk(gen, p, q)
    requires BranchesArrive(gen, p, q) && k <= |p|
    ensures SameFrom(gen, p, q, k, exits)
    decreases |exits|, |p| - k
  {
    hide Effect, Effects, Run, Displacement, Fixed, Flatten, OutputStore, Fetch, LayoutOkAt, WellFormed, ShrinkAll,
         BranchesArrive, NewBase, NewPos, Start, Lands, NeedsAlign, BranchesInside, SameFrom;
    if k == |p| {
      SameAtEnd(gen, p, q, exits);
    } else if Op(p[k]) == OPCODE_NOP {
      SameRun(gen, p, q, k + 1, exits);
      SameFromNop(gen, p, q, k, exits);
    } else {
      SameEffect(gen, p, q, k);
      if NeedsAlign(p[k]) || exits == [] {
        SameFromStop(gen, p, q, k, exits);
      } else {
        var j := SameStep(gen, p, q, k, exits[0]);
        SameRun(gen, p, q, j, exits[1..]);
        SameFromGo(gen, p, q, k, exits, j);
      }
    }
  }

  lemma SameAtEnd(gen: Gen, p: seq<Raw>, q: seq<Raw>, exits: seq<Exit>)
    requires LayoutOk(gen, p, q)
    ensures SameFrom(gen, p, q, |p|, exits)
  {
    hide Run, Flatten, OutputStore, NewBase, Start, LayoutOkAt;
    RunEnd(gen, p, q, exits);
  }

  lemma RunOff(gen: Gen, s: seq<Chunk>, exits: seq<Exit>)
    ensures Run(gen, s, |s|, exits) == []
  {
  }

  /** Both programs stop at their end. */
  lemma RunEnd(gen: Gen, p: seq<Raw>, q: seq<Raw>, exits: seq<Exit>)
    requires LayoutOk(gen, p, q)
    ensures Run(gen, Flatten(p), Start(p, |p|), exits) == []
    ensures Run(gen, OutputStore(gen, p, q), NewBase(q, |p|), exits) == []
  {
    hide Run, Fetch, Flatten, OutputStore, NewBase, Start, LayoutOkAt;
    FlattenPrefix(p, |p|);
    assert p[..|p|] == p;
    RunOff(gen, Flatten(p), exits);
    OutputEnd(gen, p, q);
    if Tail(q) != [] {
      RunNop(gen, OutputStore(gen, p, q), NewBase(q, |p|), Short(ALIGN_NOP), exits);
    }
    RunOff(gen, OutputStore(gen, p, q), exits);
  }

  /** The first step of a run from instruction k, in both programs. */
  lemma RunAt(gen: Gen, p: seq<Raw>, q: seq<Raw>, k: nat, exits: seq<Exit>)
    requires LayoutOk(gen, p, q) && k < |p|
    ensures BranchesInside(gen, p, k)
    ensures Fetch(Flatten(p), Start(p, k)) == Some(p[k])
    ensures Fetch(OutputStore(gen, p, q), NewPos(q, k)) == Some(Fixed(gen, p, q, k))
    ensures Run(gen, OutputStore(gen, p, q), NewBase(q, k), exits) ==
            Run(gen, OutputStore(gen, p, q), NewPos(q, k), exits)
  {
    hide Displacement, Fixed, Flatten, OutputStore, BranchesInside;
    assert LayoutOkAt(gen, p, q[k], k);
    FetchFlatten(p, k);
    OutputAt(gen, p, q, k);
    if Padded(q, k) {
      OutputPad(gen, p, q, k);
      RunNop(gen, OutputStore(gen, p, q), NewBase(q, k), Short(ALIGN_NOP), exits);
    }
  }

  /** Compaction preserves control flow: a well-formed program and what the store holds after
      compaction run the same instructions from their first one on. */
  lemma CompactionPreservesRuns(gen: Gen, p: seq<Raw>, exits: seq<Exit>)
    requires WellFormed(gen, p)
    requires LayoutOk(gen, p, ShrinkAll(gen, p)) ==> BranchesArrive(gen, p, ShrinkAll(gen, p))
    ensures Effects(gen, Run(gen, Flatten(p), 0, exits)) ==
            Effects(gen, Run(gen, Flatten(Output(gen, p)), 0, exits))
  {
    WellFormedLayout(gen, p);
    SameRun(gen, p, ShrinkAll(gen, p), 0, exits);
  }
}
