/** What goes wrong when a branch crosses padding: the fix-up does not know of the NOP that aligns an
    end-of-thread message. */
module EuCrossing {
  import opened EuStructs
  import opened EuCodec
  import opened EuProgram
  import opened EuLayout
  import opened EuSimulation

  /** An instruction with a compact form on gen7: every key is the first of its table. */
  const SMALL := Insn(0x201, 0x2000_0001, 0, 0)

  /** An IF that jumps over six chunks. */
  const JUMP := Insn(OPCODE_IF, 0, 0, 0x6_0006)

  /** An end-of-thread message. */
  const LAST := Insn(OPCODE_SEND, 0xc00, 0, 0x8000_0000)

  const CROSSING := [Full(JUMP), Full(SMALL), Full(LAST), Full(SMALL)]

  lemma FirstIsZero(table: seq<nat>, key: nat)
    requires table != [] && table[0] == key
    ensures FirstIndex(table, key) == 0
  {
  }

  lemma SmallKeys()
    ensures !RefusedOpcode(Opcode(SMALL.d0)) && !HasImmediate(SMALL)
    ensures ControlTable(7)[0] == ControlKey(7, SMALL) && DatatypeTable(7)[0] == DatatypeKey(SMALL)
    ensures SubregTable(7)[0] == SubregKey(SMALL)
    ensures SrcIndexTable(7)[0] == 0
  {
  }

  lemma NoSources(i: Insn)
    requires i.d2 == 0 && i.d3 == 0
    ensures Src0Key(i) == 0 && Src1Key(i) == 0
  {
  }

  lemma SmallCompacts()
    ensures TryCompact(7, SMALL).Some?
  {
    hide Pack, FirstIndex, ControlTable, DatatypeTable, SubregTable, SrcIndexTable, ControlKey, DatatypeKey, SubregKey,
         Src0Key, Src1Key, RefusedOpcode, HasImmediate;
    SmallKeys();
    NoSources(SMALL);
    FirstIsZero(ControlTable(7), ControlKey(7, SMALL));
    FirstIsZero(DatatypeTable(7), DatatypeKey(SMALL));
    FirstIsZero(SubregTable(7), SubregKey(SMALL));
    FirstIsZero(SrcIndexTable(7), Src0Key(SMALL));
    FirstIsZero(SrcIndexTable(7), Src1Key(SMALL));
  }

  lemma Refused(gen: Gen, i: Insn)
    requires RefusedOpcode(Opcode(i.d0)) || HasImmediate(i)
    ensures TryCompact(gen, i).None?
  {
  }

  lemma OthersStay()
    ensures TryCompact(7, JUMP).None? && TryCompact(7, LAST).None?
  {
    hide TryCompact;
    Refused(7, JUMP);
    Refused(7, LAST);
  }

  lemma CrossingStarts()
    ensures var p := CROSSING;
            Start(p, 0) == 0 && Start(p, 1) == 2 && Start(p, 2) == 4 && Start(p, 3) == 6 && Start(p, 4) == 8
  {
    var p := CROSSING;
    assert Start(p, 1) == 2;
    assert Start(p, 2) == 4;
    assert Start(p, 3) == 6;
  }

  lemma CrossingShrunk()
    ensures TryCompact(7, SMALL).Some?
    ensures var small := Short(TryCompact(7, SMALL).value);
            ShrinkAll(7, CROSSING) == [Full(JUMP), small, Full(LAST), small]
  {
    hide TryCompact;
    SmallCompacts();
    OthersStay();
    var q := ShrinkAll(7, CROSSING);
    forall k | 0 <= k < 4
      ensures q[k] == Shrink(7, CROSSING[k])
    {
      ShrinkAllAt(7, CROSSING, k);
    }
  }

  lemma CrossingWellFormed()
    ensures WellFormed(7, CROSSING)
  {
    hide Start, TryCompact;
    CrossingStarts();
    var p := CROSSING;
    assert IsStart(p, 6) by { assert Start(p, 3) == 6; }
    assert WellFormedAt(7, p, 0) && WellFormedAt(7, p, 1) && WellFormedAt(7, p, 2) && WellFormedAt(7, p, 3);
  }

  lemma CrossingLayout(q: seq<Raw>)
    requires LayoutOk(7, CROSSING, q) && |q| == 4
    requires q[0] == Full(JUMP) && q[1].Short? && q[2] == Full(LAST) && q[3].Short?
    ensures NewPos(q, 0) == 0 && NewPos(q, 2) == 4 && NewBase(q, 3) == 6 && !Padded(q, 3)
    ensures Nops(q, 0) == 0 && Nops(q, 3) == 1
    ensures Count(CROSSING, q, 0) == 0 && Count(CROSSING, q, 3) == 1
  {
    hide LayoutOk;
    assert NewBase(q, 1) == 2 && NewBase(q, 2) == 3;
    assert Nops(q, 1) == 0 && Nops(q, 2) == 0;
    assert Count(CROSSING, q, 1) == 0 && Count(CROSSING, q, 2) == 1;
  }

  /** A well-formed gen7 program whose IF, once rewritten, lands inside the message in front of its
      target: the message has been moved one chunk on, the distance not. */
  lemma CrossedPaddingMisses()
    ensures WellFormed(7, CROSSING) && LayoutOk(7, CROSSING, ShrinkAll(7, CROSSING))
    ensures !BranchesArrive(7, CROSSING, ShrinkAll(7, CROSSING))
    ensures BranchesInside(7, CROSSING, 0)
    ensures Start(CROSSING, 0) + Displacement(7, CROSSING[0], AtJip) == Start(CROSSING, 3)
    ensures var q := ShrinkAll(7, CROSSING);
            && NewPos(q, 2) == 4 && NewBase(q, 3) == 6
            && NewPos(q, 0) + Displacement(7, Fixed(7, CROSSING, q, 0), AtJip) == 5
  {
    hide TryCompact, Fixed, WellFormed, LayoutOk, Start, NewBase, NewPos, Padded, Nops, Count;
    var p := CROSSING;
    CrossingWellFormed();
    WellFormedLayout(7, p);
    CrossingStarts();
    CrossingShrunk();
    var q := ShrinkAll(7, p);
    CrossingLayout(q);
    FixedDistance(7, p, q, 0, AtJip);
    StartInjective(p, IndexAt(p, 6), 3);
    assert !ArrivesAt(7, p, q, 0, AtJip);
  }

  // ---- a branch that may cross padding ----

  /** A WHILE that jumps two chunks back. */
  const BACK := Insn(OPCODE_WHILE, 0, 0, 0xfffe)

  const RETURNING := [Full(SMALL), Full(LAST), Full(BACK)]

  lemma ReturningWellFormed()
    ensures WellFormed(7, RETURNING) && LayoutOk(7, RETURNING, ShrinkAll(7, RETURNING))
    ensures Start(RETURNING, 1) == 2 && Start(RETURNING, 2) == 4
    ensures Start(RETURNING, 2) + Displacement(7, RETURNING[2], AtJip) == Start(RETURNING, 1)
  {
    hide TryCompact;
    var p := RETURNING;
    assert Start(p, 1) == 2 && Start(p, 2) == 4 && Start(p, 3) == 6;
    assert Displacement(7, p[2], AtJip) == -2 && Displacement(7, p[2], AtUip) == 0;
    assert IsStart(p, 2) && IsStart(p, 4);
    assert WellFormedAt(7, p, 0) && WellFormedAt(7, p, 1) && WellFormedAt(7, p, 2);
    WellFormedLayout(7, p);
  }

  lemma ReturningShrunk()
    ensures var q := ShrinkAll(7, RETURNING);
            Padded(q, 1) && Nops(q, 1) == 0 && Nops(q, 2) == 1 && NewPos(q, 1) == 2 && NewPos(q, 2) == 4
  {
    hide TryCompact;
    SmallCompacts();
    Refused(7, LAST);
    Refused(7, BACK);
    var q := ShrinkAll(7, RETURNING);
    ShrinkAllAt(7, RETURNING, 0);
    ShrinkAllAt(7, RETURNING, 1);
    ShrinkAllAt(7, RETURNING, 2);
    assert NewBase(q, 1) == 1 && Nops(q, 1) == 0;
    assert NewBase(q, 2) == 4;
  }

  /** A branch back to a message that has been moved on: the padding in front of the message is crossed,
      and the branch arrives behind it, at the message. */
  lemma CrossedPaddingArrives()
    ensures WellFormed(7, RETURNING) && LayoutOk(7, RETURNING, ShrinkAll(7, RETURNING))
    ensures BranchesInside(7, RETURNING, 2)
    ensures var q := ShrinkAll(7, RETURNING);
            && Nops(q, 2) != Nops(q, 1)
            && NewPos(q, 2) + Displacement(7, Fixed(7, RETURNING, q, 2), AtJip) == NewPos(q, 1)
  {
    hide TryCompact, Fixed, WellFormed, LayoutOk, Start, NewBase, NewPos, Padded, Nops, Count, ShrinkAll;
    ReturningWellFormed();
    ReturningShrunk();
    var p := RETURNING;
    FixedDistance(7, p, ShrinkAll(7, p), 2, AtJip);
    StartInjective(p, IndexAt(p, 2), 1);
    ReturningCount(ShrinkAll(7, p));
  }

  lemma ReturningCount(q: seq<Raw>)
    requires LayoutOk(7, RETURNING, q)
    ensures Count(RETURNING, q, 2) == Count(RETURNING, q, 1)
  {
    assert LayoutOkAt(7, RETURNING, q[1], 1);
  }
}
