/** What the compacted program is made of, and why compacting it again changes nothing. */
module EuStable {
  import opened EuStructs
  import opened EuCodec
  import opened EuProgram
  import opened EuLayout
  import opened EuCompact
  import opened EuProgramStore
  import opened EuSimulation

  /** The place of instruction k among the instructions of the output. */
  function OutputIndex(q: seq<Raw>, k: nat): nat
    requires k < |q|
  {
    LandingIndex(q, k) + if Padded(q, k) then 1 else 0
  }

  /** The place branches to instruction k land at: its padding, or the instruction itself. */
  function LandingIndex(q: seq<Raw>, k: nat): nat
    requires k <= |q|
  {
    k + Nops(q, k)
  }

  lemma {:induction false} LaidCount(q: seq<Raw>, x: seq<Raw>, k: nat)
    requires k <= |q| == |x|
    ensures |Laid(q, x, k)| == LandingIndex(q, k)
  {
    if k > 0 {
      LaidCount(q, x, k - 1);
    }
  }

  lemma {:induction false} StartAppend(a: seq<Raw>, b: seq<Raw>, i: nat)
    requires i <= |a|
    ensures Start(a + b, i) == Start(a, i)
  {
    if i > 0 {
      StartAppend(a, b, i - 1);
    }
  }

  lemma StartOfPrefix(a: seq<Raw>, b: seq<Raw>)
    ensures Start(a + b, |a|) == |Flatten(a)|
  {
    FlattenPrefix(a + b, |a|);
    assert (a + b)[..|a|] == a;
  }

  /** Instruction k of the program, with its distances rewritten, is instruction OutputIndex(k)
      of the output; the one in front of it, if it is padded, is a NOP. */
  lemma OutputHolds(gen: Gen, p: seq<Raw>, q: seq<Raw>, k: nat)
    requires LayoutOk(gen, p, q) && k < |p|
    ensures BranchesInside(gen, p, k)
    ensures LandingIndex(q, k) <= OutputIndex(q, k) < |OutputOf(gen, p, q)|
    ensures OutputOf(gen, p, q)[OutputIndex(q, k)] == Fixed(gen, p, q, k)
    ensures Start(OutputOf(gen, p, q), OutputIndex(q, k)) == NewPos(q, k)
    ensures Start(OutputOf(gen, p, q), LandingIndex(q, k)) == NewBase(q, k)
    ensures Padded(q, k) ==> OutputOf(gen, p, q)[LandingIndex(q, k)] == Short(ALIGN_NOP)
  {
    hide Flatten, Laid, LaidFrom, Fixed, Start, BranchesInside, Proper;
    var f := FixedSeq(gen, p, q);
    LaidAt(q, f, k, Tail(q));
    LaidCount(q, f, k);
    LaidLength(q, f, k);
    Pieces(Laid(q, f, k), Pad(q, k), f[k], LaidFrom(q, f, k + 1) + Tail(q));
  }

  lemma Pieces(a: seq<Raw>, pad: seq<Raw>, x: Raw, c: seq<Raw>)
    ensures var o := (a + pad) + [x] + c;
            && |o| == |a| + |pad| + 1 + |c|
            && o[|a| + |pad|] == x
            && (pad != [] ==> o[|a|] == pad[0])
            && Start(o, |a|) == |Flatten(a)|
            && Start(o, |a| + |pad|) == |Flatten(a + pad)|
  {
    hide Flatten, Start;
    var o := (a + pad) + [x] + c;
    assert o == (a + pad) + ([x] + c);
    StartOfPrefix(a + pad, [x] + c);
    assert o == a + (pad + [x] + c);
    StartOfPrefix(a, pad + [x] + c);
  }

  /** The instruction an element of the output comes from; padding comes from the instruction
      behind it, and the padding at the end from none. */
  function Origin(q: seq<Raw>, i: nat, k: nat): (j: nat)
    requires k <= |q| && i < LandingIndex(q, k)
    ensures j < k && LandingIndex(q, j) <= i <= OutputIndex(q, j)
  {
    if LandingIndex(q, k - 1) <= i then k - 1 else Origin(q, i, k - 1)
  }

  lemma OutputLength(gen: Gen, p: seq<Raw>, q: seq<Raw>)
    requires LayoutOk(gen, p, q)
    ensures |OutputOf(gen, p, q)| == LandingIndex(q, |p|) + |Tail(q)|
    ensures Tail(q) != [] ==> OutputOf(gen, p, q)[LandingIndex(q, |p|)] == Short(ALIGN_NOP)
    ensures Start(OutputOf(gen, p, q), |OutputOf(gen, p, q)|) % 2 == 0
  {
    hide Flatten, Laid;
    var f := FixedSeq(gen, p, q);
    LaidCount(q, f, |p|);
    var o := OutputOf(gen, p, q);
    OutputEnd(gen, p, q);
    FlattenPrefix(o, |o|);
    assert o[..|o|] == o;
  }

  /** Whether an element of the output is one of the instructions of the program. */
  ghost predicate FromProgram(q: seq<Raw>, i: nat) {
    exists k: nat :: k < |q| && i == OutputIndex(q, k)
  }

  /** Nothing but padding is added: every element of the output is an instruction of the
      program, at its place, or a padding NOP. */
  lemma OnlyPaddingAdded(gen: Gen, p: seq<Raw>, q: seq<Raw>, i: nat)
    requires LayoutOk(gen, p, q) && i < |OutputOf(gen, p, q)|
    ensures OutputOf(gen, p, q)[i] == Short(ALIGN_NOP) || FromProgram(q, i)
  {
    hide OutputOf, Fixed, Start, NewPos, BranchesInside;
    OutputLength(gen, p, q);
    if i < LandingIndex(q, |p|) {
      var k := Origin(q, i, |p|);
      OutputHolds(gen, p, q, k);
    }
  }

  /** Decoding what the store holds after compaction gives the output program, whose elements
      are the original instructions in order, doing what they did before, and padding. */
  lemma DecodeOutput(gen: Gen, p: seq<Raw>)
    requires WellFormed(gen, p)
    ensures var o, q := Decode(Flatten(Output(gen, p))), ShrinkAll(gen, p);
            && (forall k :: 0 <= k < |p| ==>
                  OutputIndex(q, k) < |o| && Effect(gen, o[OutputIndex(q, k)]) == Effect(gen, p[k]))
            && (forall j, k :: 0 <= j < k < |p| ==> OutputIndex(q, j) < OutputIndex(q, k))
            && (forall i :: 0 <= i < |o| ==> o[i] == Short(ALIGN_NOP) || FromProgram(q, i))
  {
    hide Effect, Flatten, Fixed, Decode, OutputOf, FromProgram, OutputIndex, Proper, ShrinkAll, LayoutOk, WellFormed,
         BranchesInside;
    var q := ShrinkAll(gen, p);
    WellFormedLayout(gen, p);
    var o := OutputOf(gen, p, q);
    forall i | 0 <= i < |o|
      ensures Proper(o[i]) && (o[i] == Short(ALIGN_NOP) || FromProgram(q, i))
    {
      OnlyPaddingAdded(gen, p, q, i);
      OutputProper(gen, p, q, i);
    }
    DecodeFlatten(o);
    forall k | 0 <= k < |p|
      ensures OutputIndex(q, k) < |o| && Effect(gen, o[OutputIndex(q, k)]) == Effect(gen, p[k])
    {
      OutputHolds(gen, p, q, k);
      SameEffect(gen, p, q, k);
    }
    forall j, k | 0 <= j < k < |p| ensures OutputIndex(q, j) < OutputIndex(q, k) {
      OutputOrder(gen, p, q, j, k);
    }
  }

  lemma OutputOrder(gen: Gen, p: seq<Raw>, q: seq<Raw>, j: nat, k: nat)
    requires LayoutOk(gen, p, q) && j < k < |p|
    ensures OutputIndex(q, j) < OutputIndex(q, k)
  {
    Distances(gen, p, q, j + 1, k);
  }

  lemma OutputProper(gen: Gen, p: seq<Raw>, q: seq<Raw>, i: nat)
    requires LayoutOk(gen, p, q) && i < |OutputOf(gen, p, q)|
    ensures Proper(OutputOf(gen, p, q)[i])
  {
    hide OutputOf, Fixed;
    OnlyPaddingAdded(gen, p, q, i);
    if OutputOf(gen, p, q)[i] != Short(ALIGN_NOP) {
      var k: nat :| k < |p| && i == OutputIndex(q, k);
      OutputHolds(gen, p, q, k);
      FixedShape(gen, p, q, k);
    }
  }

  // ---- compacting a second time ----

  /** The fields of a distance dword are the whole dword. */
  lemma DistanceDwords(d1: u32, d3: u32)
    ensures BreakCont(Jip(d3), Uip(d3)) == d3
    ensures WithJumpCount(d1, JumpCount(d1)) == d1
  {
  }

  /** Messages keep their alignment, and so have it in the output. */
  lemma OutputAligned(gen: Gen, p: seq<Raw>, q: seq<Raw>, i: nat)
    requires LayoutOk(gen, p, q) && i < |OutputOf(gen, p, q)| && NeedsAlign(OutputOf(gen, p, q)[i])
    ensures Start(OutputOf(gen, p, q), i) % 2 == 0
  {
    hide OutputOf, Fixed, Start;
    OnlyPaddingAdded(gen, p, q, i);
    var k: nat :| k < |p| && i == OutputIndex(q, k);
    OutputHolds(gen, p, q, k);
    SameKind(gen, p, q, k);
    FixedShape(gen, p, q, k);
    assert LayoutOkAt(gen, p, q[k], k);
  }

  /** The branches of the output go to instructions of the output. */
  lemma OutputBranches(gen: Gen, p: seq<Raw>, q: seq<Raw>, i: nat)
    requires LayoutOk(gen, p, q) && BranchesArrive(gen, p, q) && i < |OutputOf(gen, p, q)|
    ensures BranchesInside(gen, OutputOf(gen, p, q), i)
  {
    hide OutputOf, Fixed, Start, Displacement, NewPos, NewBase, LandingIndex;
    var o := OutputOf(gen, p, q);
    OnlyPaddingAdded(gen, p, q, i);
    if IsBranch(gen, Op(o[i])) {
      var k: nat :| k < |p| && i == OutputIndex(q, k);
      OutputHolds(gen, p, q, k);
      SameKind(gen, p, q, k);
      OutputBranch(gen, p, q, k, AtJip);
      OutputBranch(gen, p, q, k, AtUip);
    }
  }

  lemma OutputBranch(gen: Gen, p: seq<Raw>, q: seq<Raw>, k: nat, e: Exit)
    requires LayoutOk(gen, p, q) && BranchesArrive(gen, p, q) && k < |p| && IsBranch(gen, Op(p[k])) && e != Fall
    ensures BranchesInside(gen, p, k)
    ensures IsStart(OutputOf(gen, p, q), NewPos(q, k) + Displacement(gen, Fixed(gen, p, q, k), e))
  {
    hide OutputOf, Fixed, Start, Displacement, NewPos, NewBase, OffsetsAgree, LayoutOkAt, IsBranch, BranchesInside,
         LandingIndex, OutputIndex;
    assert ArrivesAt(gen, p, q, k, e);
    BranchArrives(gen, p, q, k, e);
    var j := IndexAt(p, Start(p, k) + Displacement(gen, p[k], e));
    OutputHolds(gen, p, q, j);
    assert Start(OutputOf(gen, p, q), LandingIndex(q, j)) == NewBase(q, j);
    assert Start(OutputOf(gen, p, q), OutputIndex(q, j)) == NewPos(q, j);
  }

  /** Nothing in the output has a shorter form left. */
  lemma OutputFinal(gen: Gen, p: seq<Raw>, q: seq<Raw>, i: nat)
    requires WellFormed(gen, p) && q == ShrinkAll(gen, p) && LayoutOk(gen, p, q) && i < |OutputOf(gen, p, q)|
    ensures Shrink(gen, OutputOf(gen, p, q)[i]) == OutputOf(gen, p, q)[i]
  {
    hide OutputOf, Fixed, TryCompact, ShrinkAll;
    OnlyPaddingAdded(gen, p, q, i);
    if OutputOf(gen, p, q)[i] != Short(ALIGN_NOP) {
      var k: nat :| k < |p| && i == OutputIndex(q, k);
      OutputHolds(gen, p, q, k);
      FixedFinal(gen, p, q, k);
    }
  }

  lemma FixedFinal(gen: Gen, p: seq<Raw>, q: seq<Raw>, k: nat)
    requires WellFormed(gen, p) && q == ShrinkAll(gen, p) && LayoutOk(gen, p, q) && k < |p|
    ensures BranchesInside(gen, p, k)
    ensures Shrink(gen, Fixed(gen, p, q, k)) == Fixed(gen, p, q, k)
    ensures Fixed(gen, p, q, k).Full? && IsBranch(gen, Op(p[k])) ==>
              RefusedOpcode(Op(p[k])) || HasImmediate(Fixed(gen, p, q, k).insn)
    ensures !IsBranch(gen, Op(p[k])) ==> Fixed(gen, p, q, k) == q[k]
  {
    hide ShrinkAll, Displacement;
    assert LayoutOkAt(gen, p, q[k], k) && WellFormedAt(gen, p, k);
    ShrinkAllAt(gen, p, k);
  }

  /** The output is again a program compaction is meant for. */
  lemma OutputWellFormed(gen: Gen, p: seq<Raw>)
    requires WellFormed(gen, p) && LayoutOk(gen, p, ShrinkAll(gen, p))
    requires BranchesArrive(gen, p, ShrinkAll(gen, p))
    ensures WellFormed(gen, Output(gen, p))
  {
    hide OutputOf, ShrinkAll, Start;
    var q := ShrinkAll(gen, p);
    var o := OutputOf(gen, p, q);
    OutputLength(gen, p, q);
    forall i | 0 <= i < |o| ensures WellFormedAt(gen, o, i) {
      OutputWellFormedAt(gen, p, q, i);
    }
  }

  lemma OutputWellFormedAt(gen: Gen, p: seq<Raw>, q: seq<Raw>, i: nat)
    requires WellFormed(gen, p) && q == ShrinkAll(gen, p) && LayoutOk(gen, p, q)
    requires BranchesArrive(gen, p, q) && i < |OutputOf(gen, p, q)|
    ensures WellFormedAt(gen, OutputOf(gen, p, q), i)
  {
    hide OutputOf, ShrinkAll, Start, BranchesInside, Fixed, HasImmediate, LayoutOk, BranchesArrive;
    var r := OutputOf(gen, p, q)[i];
    OutputBranches(gen, p, q, i);
    OutputProper(gen, p, q, i);
    if NeedsAlign(r) {
      OutputAligned(gen, p, q, i);
    }
    OnlyPaddingAdded(gen, p, q, i);
    if r != Short(ALIGN_NOP) {
      var k: nat :| k < |p| && i == OutputIndex(q, k);
      OutputHolds(gen, p, q, k);
      OutputKinds(gen, p, q, k);
    }
  }

  /** An instruction of the output is long, and has its immediate, when it has to. */
  lemma OutputKinds(gen: Gen, p: seq<Raw>, q: seq<Raw>, k: nat)
    requires WellFormed(gen, p) && q == ShrinkAll(gen, p) && LayoutOk(gen, p, q) && k < |p|
    ensures BranchesInside(gen, p, k)
    ensures var r := Fixed(gen, p, q, k);
            && !OtherBranch(Op(r))
            && (IsBranch(gen, Op(r)) || IsSend(Op(r)) ==> r.Full?)
            && (IsSend(Op(r)) || Op(r) == OPCODE_BREAK || Op(r) == OPCODE_CONTINUE ==> HasImmediate(r.insn))
  {
    hide ShrinkAll, Displacement, TryCompact, BranchesInside, Start;
    assert LayoutOkAt(gen, p, q[k], k) && WellFormedAt(gen, p, k);
    FixedShape(gen, p, q, k);
    FixedFinal(gen, p, q, k);
  }

  // A program with nothing to compact and its messages aligned.

  lemma {:induction false} NothingMoves(gen: Gen, o: seq<Raw>, k: nat)
    requires LayoutOk(gen, o, o) && k <= |o|
    ensures NewBase(o, k) == Start(o, k) && Nops(o, k) == 0 && Count(o, o, k) == 0
    ensures k < |o| ==> !Padded(o, k)
  {
    if k > 0 {
      NothingMoves(gen, o, k - 1);
    }
    if k < |o| {
      assert LayoutOkAt(gen, o, o[k], k);
    }
  }

  lemma NothingFixed(gen: Gen, o: seq<Raw>, k: nat)
    requires LayoutOk(gen, o, o) && k < |o|
    ensures BranchesInside(gen, o, k) && Fixed(gen, o, o, k) == o[k]
  {
    hide Displacement, Retarget, Start, NewBase, Nops, IsBranch, Op;
    assert LayoutOkAt(gen, o, o[k], k);
    if IsBranch(gen, Op(o[k])) {
      var jip, uip := Displacement(gen, o[k], AtJip), Displacement(gen, o[k], AtUip);
      NothingMoves(gen, o, k);
      NothingMoves(gen, o, IndexAt(o, Start(o, k) + jip));
      NothingMoves(gen, o, IndexAt(o, Start(o, k) + uip));
      NothingRetargeted(gen, o[k]);
    }
  }

  lemma NothingRetargeted(gen: Gen, r: Raw)
    requires r.Full? && IsBranch(gen, Op(r))
    ensures Retarget(gen, r, Displacement(gen, r, AtJip), Displacement(gen, r, AtUip)) == r
  {
    DistanceDwords(r.insn.d1, r.insn.d3);
  }

  lemma {:induction false} NothingInserted(gen: Gen, o: seq<Raw>, k: nat)
    requires LayoutOk(gen, o, o) && k <= |o|
    ensures Laid(o, o, k) == o[..k]
  {
    if k > 0 {
      NothingInserted(gen, o, k - 1);
      NothingMoves(gen, o, k - 1);
    }
  }

  lemma {:induction false} NothingShrunk(gen: Gen, o: seq<Raw>)
    requires forall i :: 0 <= i < |o| ==> Shrink(gen, o[i]) == o[i]
    ensures ShrinkAll(gen, o) == o
  {
    hide Shrink;
    forall i | 0 <= i < |o| ensures ShrinkAll(gen, o)[i] == o[i] {
      ShrinkAllAt(gen, o, i);
    }
  }

  /** Compaction is idempotent: of its own output, it makes the same program again. */
  lemma CompactionIdempotent(gen: Gen, p: seq<Raw>)
    requires WellFormed(gen, p)
    requires LayoutOk(gen, p, ShrinkAll(gen, p)) ==> BranchesArrive(gen, p, ShrinkAll(gen, p))
    ensures WellFormed(gen, Output(gen, p))
    ensures Output(gen, Output(gen, p)) == Output(gen, p)
  {
    WellFormedLayout(gen, p);
    OutputWellFormed(gen, p);
    var o := Output(gen, p);
    OutputUnshrinkable(gen, p);
    NothingShrunk(gen, o);
    WellFormedLayout(gen, o);
    NothingChanges(gen, o);
  }

  lemma OutputUnshrinkable(gen: Gen, p: seq<Raw>)
    requires WellFormed(gen, p)
    ensures forall i :: 0 <= i < |Output(gen, p)| ==> Shrink(gen, Output(gen, p)[i]) == Output(gen, p)[i]
  {
    hide Shrink, OutputOf, ShrinkAll;
    WellFormedLayout(gen, p);
    var o := Output(gen, p);
    forall i | 0 <= i < |o| ensures Shrink(gen, o[i]) == o[i] {
      OutputFinal(gen, p, ShrinkAll(gen, p), i);
    }
  }

  lemma NothingChanges(gen: Gen, o: seq<Raw>)
    requires LayoutOk(gen, o, o)
    ensures OutputOf(gen, o, o) == o
  {
    hide Fixed, Start, NewBase, Laid, BranchesInside;
    var f := FixedSeq(gen, o, o);
    forall k | 0 <= k < |o| ensures f[k] == o[k] {
      NothingFixed(gen, o, k);
    }
    assert f == o;
    NothingInserted(gen, o, |o|);
    NothingMoves(gen, o, |o|);
  }

  // ---- the instructions of the output in their bits, by opcode ----

  /** An instruction that is no branch is in the output as it was, if it is not accepted, and otherwise in a
      form that comes back with the unencoded bits cleared. */
  lemma InstructionsKept(gen: Gen, p: seq<Raw>, k: nat)
    requires WellFormed(gen, p) && k < |p| && p[k].Full?
    requires p[k].insn.d0 % 0x80 !in {34, 36, 37, 39, 40, 41, 42}
    ensures var o, j := Output(gen, p), OutputIndex(ShrinkAll(gen, p), k);
            && j < |o|
            && (TryCompact(gen, p[k].insn).None? ==> o[j] == p[k])
            && (TryCompact(gen, p[k].insn).Some? ==>
                  o[j].Short? && Uncompact(gen, o[j].chunk) == ClearUnencoded(gen, p[k].insn))
  {
    hide Fixed, TryCompact, Uncompact, ClearUnencoded, OutputOf, OutputIndex, ShrinkAll, LayoutOk, WellFormed;
    var q := ShrinkAll(gen, p);
    WellFormedLayout(gen, p);
    OutputHolds(gen, p, q, k);
    FixedShape(gen, p, q, k);
    ShrinkAllAt(gen, p, k);
    if TryCompact(gen, p[k].insn).Some? {
      CompactRoundTrip(gen, p[k].insn);
    }
  }

  /** An instruction with an immediate in either source, unless it is a branch, is in the output, and in the
      compacted store, with all of its 128 bits. */
  lemma ImmediatesKept(gen: Gen, p: seq<Raw>, k: nat)
    requires WellFormed(gen, p) && k < |p| && p[k].Full?
    requires p[k].insn.d0 % 0x80 !in {34, 36, 37, 39, 40, 41, 42}
    requires p[k].insn.d1 / 0x20 % 4 == 3 || p[k].insn.d1 / 0x400 % 4 == 3
    ensures var o, j := Output(gen, p), OutputIndex(ShrinkAll(gen, p), k);
            && j < |o| && o[j] == p[k]
            && Start(o, j) + 1 < |Flatten(o)| && InsnAt(Flatten(o), Start(o, j)) == p[k].insn
  {
    hide Output, TryCompact, Uncompact, ClearUnencoded, OutputIndex, ShrinkAll, WellFormed, Start, Flatten, InTables;
    InstructionsKept(gen, p, k);
    if gen == 6 {
      AcceptedExactly(p[k].insn);
    } else {
      AcceptedExactly(p[k].insn);
    }
    InStore(Output(gen, p), OutputIndex(ShrinkAll(gen, p), k));
  }

  lemma InStore(o: seq<Raw>, j: nat)
    requires j < |o| && o[j].Full?
    ensures Start(o, j) + 1 < |Flatten(o)| && InsnAt(Flatten(o), Start(o, j)) == o[j].insn
  {
    FlattenAt(o, j);
    var at := Flatten(o)[Start(o, j)..][..2];
    assert Flatten(o)[Start(o, j)] == at[0] && Flatten(o)[Start(o, j) + 1] == at[1];
  }

  /** A halfword of a distance, read as a signed number. */
  function Half(x: nat): int {
    if x % 0x1_0000 < 0x8000 then x % 0x1_0000 else x % 0x1_0000 - 0x1_0000
  }

  /** Whether i is branch k with its distances rewritten, by the halves of its dwords: on gen6 IF, ELSE, ENDIF
      and WHILE have one in the upper half of bits1, all other branches two in the halves of bits3.  Each is
      the old one less the instructions compacted on the way, and nothing else of the branch changes. */
  ghost predicate Rewritten(gen: Gen, p: seq<Raw>, q: seq<Raw>, k: nat, i: Insn)
    requires k < |p| == |q| && p[k].Full?
  {
    var was := p[k].insn;
    if gen == 6 && Op(p[k]) in {34, 36, 37, 39} then
      var d := Half(was.d1 / 0x1_0000);
      && IsStart(p, Start(p, k) + d)
      && i == was.(d1 := i.d1) && i.d1 % 0x1_0000 == was.d1 % 0x1_0000
      && Half(i.d1 / 0x1_0000) == d - CompactedBetween(p, q, k, d)
    else
      var jip, uip := Half(was.d3), Half(was.d3 / 0x1_0000);
      && IsStart(p, Start(p, k) + jip) && IsStart(p, Start(p, k) + uip)
      && i == was.(d3 := i.d3)
      && Half(i.d3) == jip - CompactedBetween(p, q, k, jip)
      && Half(i.d3 / 0x1_0000) == uip - CompactedBetween(p, q, k, uip)
  }

  /** Every branch of the program is in the output with its distances rewritten, that of a HALT included. */
  lemma BranchesRewritten(gen: Gen, p: seq<Raw>, k: nat)
    requires WellFormed(gen, p) && k < |p| && Op(p[k]) in {34, 36, 37, 39, 40, 41, 42}
    ensures var o, q := Output(gen, p), ShrinkAll(gen, p);
            var j := OutputIndex(q, k);
            j < |o| && p[k].Full? && o[j].Full? && Rewritten(gen, p, q, k, o[j].insn)
  {
    hide Fixed, Retarget, OutputOf, OutputIndex, ShrinkAll, LayoutOk, WellFormed, Rewritten, BranchesInside;
    var q := ShrinkAll(gen, p);
    WellFormedLayout(gen, p);
    OutputHolds(gen, p, q, k);
    FixedRewritten(gen, p, q, k);
  }

  lemma BranchBits(gen: Gen, r: Raw)
    requires r.Full? && Op(r) in {34, 36, 37, 39, 40, 41, 42}
    ensures IsBranch(gen, Op(r))
    ensures gen == 6 && Op(r) in {34, 36, 37, 39} ==>
              Displacement(gen, r, AtJip) == Displacement(gen, r, AtUip) == Half(r.insn.d1 / 0x1_0000)
    ensures gen == 7 || Op(r) in {40, 41, 42} ==>
              && Displacement(gen, r, AtJip) == Half(r.insn.d3)
              && Displacement(gen, r, AtUip) == Half(r.insn.d3 / 0x1_0000)
  {
  }

  lemma RetargetKeeps(gen: Gen, r: Raw, jip: int, uip: int)
    requires r.Full? && Op(r) in {34, 36, 37, 39, 40, 41, 42}
    ensures var r' := Retarget(gen, r, jip, uip);
            && r'.Full? && Op(r') == Op(r)
            && (gen == 6 && Op(r) in {34, 36, 37, 39} ==>
                  r'.insn == r.insn.(d1 := r'.insn.d1) && r'.insn.d1 % 0x1_0000 == r.insn.d1 % 0x1_0000)
            && (gen == 7 || Op(r) in {40, 41, 42} ==> r'.insn == r.insn.(d3 := r'.insn.d3))
  {
  }

  lemma FixedRewritten(gen: Gen, p: seq<Raw>, q: seq<Raw>, k: nat)
    requires LayoutOk(gen, p, q) && k < |p| && Op(p[k]) in {34, 36, 37, 39, 40, 41, 42}
    ensures BranchesInside(gen, p, k) && p[k].Full?
    ensures Fixed(gen, p, q, k).Full? && Rewritten(gen, p, q, k, Fixed(gen, p, q, k).insn)
  {
    hide CompactedBetween, Start, IsStart, Displacement, Retarget, Half;
    assert LayoutOkAt(gen, p, q[k], k);
    BranchBits(gen, p[k]);
    FixedDisplacement(gen, p, q, k, AtJip);
    FixedDisplacement(gen, p, q, k, AtUip);
    var jip, uip := Displacement(gen, p[k], AtJip), Displacement(gen, p[k], AtUip);
    RetargetKeeps(gen, p[k], jip - CompactedBetween(p, q, k, jip), uip - CompactedBetween(p, q, k, uip));
    BranchBits(gen, Fixed(gen, p, q, k));
  }

  /** Messages that end the thread, by opcode and bit 127, are at even chunks of the output. */
  lemma EndOfThreadAligned(gen: Gen, p: seq<Raw>, i: nat)
    requires WellFormed(gen, p) && i < |Output(gen, p)| && Output(gen, p)[i].Full?
    requires Output(gen, p)[i].insn.d0 % 0x80 in {49, 50} && Output(gen, p)[i].insn.d3 >= 0x8000_0000
    ensures Start(Output(gen, p), i) % 2 == 0
  {
    hide OutputOf, ShrinkAll, LayoutOk, WellFormed, Start;
    WellFormedLayout(gen, p);
    OutputAligned(gen, p, ShrinkAll(gen, p), i);
  }

  /** Whatever in the output is no instruction of the program is a compacted NOP, of which all other bits are zero. */
  lemma PaddingIsNop(gen: Gen, p: seq<Raw>, i: nat)
    requires WellFormed(gen, p) && i < |Output(gen, p)| && !FromProgram(ShrinkAll(gen, p), i)
    ensures Output(gen, p)[i] == Short(Chunk(126 + 0x2000_0000, 0))
  {
    hide OutputOf, ShrinkAll, LayoutOk, WellFormed, FromProgram;
    WellFormedLayout(gen, p);
    OnlyPaddingAdded(gen, p, ShrinkAll(gen, p), i);
  }

  /** What counts as the effect of an instruction: all of its bits, but for the distances of branches and what its
      compact form has no place for. */
  lemma EffectBits(gen: Gen, i: Insn)
    ensures TryCompact(gen, i).Some? ==>
              var c := TryCompact(gen, i).value;
              Effect(gen, Full(i)) == Effect(gen, Short(c)) == Uncompact(gen, c)
    ensures TryCompact(gen, i).None? ==>
              Effect(gen, Full(i)) ==
              if gen == 6 && i.d0 % 0x80 in {34, 36, 37, 39} then i.(d1 := i.d1 % 0x1_0000)
              else if i.d0 % 0x80 in {34, 36, 37, 39, 40, 41, 42} then i.(d3 := 0) else i
  {
    hide TryCompact, Uncompact;
    if TryCompact(gen, i).Some? {
      CompactRoundTrip(gen, i);
    }
  }

  /** What is asked of each instruction of a well-formed program, in its bits. */
  lemma WellFormedInBits(gen: Gen, p: seq<Raw>, k: nat)
    requires k < |p|
    ensures WellFormedAt(gen, p, k) <==>
              var op := Header(p[k]) % 0x80;
              && (Header(p[k]) / 0x2000_0000 % 2 == 1 <==> p[k].Short?)
              && op !in {32, 33, 35, 44, 45}
              && (p[k].Short? ==> op !in {34, 36, 37, 39, 40, 41, 42, 49, 50})
              && (p[k].Full? ==>
                    && (op in {40, 41, 49, 50} ==>
                          p[k].insn.d1 / 0x20 % 4 == 3 || p[k].insn.d1 / 0x400 % 4 == 3)
                    && (op in {49, 50} && p[k].insn.d3 >= 0x8000_0000 ==> Start(p, k) % 2 == 0)
                    && (gen == 6 && op in {34, 36, 37, 39} ==>
                          IsStart(p, Start(p, k) + Half(p[k].insn.d1 / 0x1_0000)))
                    && (op in {40, 41, 42} || (gen == 7 && op in {34, 36, 37, 39}) ==>
                          && IsStart(p, Start(p, k) + Half(p[k].insn.d3))
                          && IsStart(p, Start(p, k) + Half(p[k].insn.d3 / 0x1_0000))))
  {
    hide Start, IsStart, Displacement, Half;
    if p[k].Full? && Op(p[k]) in {34, 36, 37, 39, 40, 41, 42} {
      BranchBits(gen, p[k]);
    }
  }
}
