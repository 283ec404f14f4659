/** What the pass over BREAK, CONTINUE and ENDIF makes of an emitted program: the code the
    structured program should have, up to the JIPs. */
module EuFinished {
  import opened Options
  import opened EuIr
  import opened EuPatching
  import opened EuTargets
  import opened EuUipJip

  /** A BREAK or CONTINUE outside every loop of s. */
  predicate FreeJump(s: Stmt) {
    match s
    case Seq(a, b) => FreeJump(a) || FreeJump(b)
    case If(thn) => FreeJump(thn)
    case IfElse(thn, els) => FreeJump(thn) || FreeJump(els)
    case Break => true
    case Continue => true
    case _ => false
  }

  /** The same instruction, JIP aside. */
  predicate SameButJip(a: Insn, b: Insn) {
    a == b.(fields := b.fields.(jip := a.fields.jip))
  }

  lemma FreeJumpStep(c: Config, p: Place, patched: bool, i: nat)
    requires i < Length(c, p.s)
    ensures var part := Locate(c, p, patched, i);
            && (part.Own? && IsJumpOut(part.insn) ==> FreeJump(p.s))
            && (part.Inner? && FreeJump(part.place.s) ==> p.s.Loop? || FreeJump(p.s))
  {
    hide After, AfterDo, Used, Unpredicated, IfInsn, ElseInsn, EndifInsns, DoInsns, WhileInsn, BreakInsn;
    if Locate(c, p, patched, i).Own? {
      OwnInsn(c, p, patched, i);
    }
  }

  lemma {:induction false} LoopAroundJump(c: Config, p: Place, patched: bool, i: nat)
    requires i < Length(c, p.s) && IsJumpOut(At(c, p, patched, i)) && !FreeJump(p.s)
    ensures LoopEnd(c, p.s, p.at, p.at + i).Some?
    decreases p.s
  {
    hide Locate, Length, LoopEnd, FreeJump;
    LoopEndStep(c, p, patched, i);
    FreeJumpStep(c, p, patched, i);
    match Locate(c, p, patched, i)
    case Own(_) =>
    case Inner(q, j) =>
      if !FreeJump(q.s) {
        LoopAroundJump(c, q, patched, j);
      }
  }

  /** Settling jumps changes nothing but the fields of BREAK and CONTINUE. */
  lemma {:induction false} SettlingChangesJumps(c: Config, p: Place, p': Place, i: nat)
    requires p.(loop := None) == p'.(loop := None) && i < Length(c, p.s)
    ensures var a, b := At(c, p, false, i), At(c, p', true, i);
            if IsJumpOut(a) then a == b.(fields := a.fields) else a == b
    decreases p.s
  {
    hide Locate, Length;
    LocateUnsettled(c, p, p', i);
    match Locate(c, p, false, i)
    case Own(_) =>
    case Inner(q, j) => SettlingChangesJumps(c, q, Locate(c, p', true, i).place, j);
  }

  lemma LocateUnsettled(c: Config, p: Place, p': Place, i: nat)
    requires p.(loop := None) == p'.(loop := None) && i < Length(c, p.s)
    ensures var part, part' := Locate(c, p, false, i), Locate(c, p', true, i);
            && part.Own? == part'.Own?
            && (part.Inner? ==> part.i == part'.i && part.place.(loop := None) == part'.place.(loop := None))
            && (part.Own? ==> if IsJumpOut(part.insn) then part.insn == part'.insn.(fields := part.insn.fields)
                              else part.insn == part'.insn)
  {
    hide After, AfterDo, Used, Unpredicated, IfInsn, ElseInsn, EndifInsns, DoInsns, WhileInsn, BreakInsn, Plain;
    OwnUnsettled(c, p, p', i);
  }

  lemma OwnUnsettled(c: Config, p: Place, p': Place, i: nat)
    requires p.(loop := None) == p'.(loop := None) && i < Length(c, p.s)
    ensures var part, part' := Locate(c, p, false, i), Locate(c, p', true, i);
            part.Own? && part'.Own? ==>
              if IsJumpOut(part.insn) then part.insn == part'.insn.(fields := part.insn.fields)
              else part.insn == part'.insn
  {
    hide After, AfterDo, Used, Unpredicated, IfInsn, ElseInsn, EndifInsns, DoInsns, WhileInsn, BreakInsn;
    var Place(s, cur, at, loop, d) := p;
    if s.Break? {
      JumpFieldsOnly(c, BREAK, cur, at, loop, p'.loop, d);
    } else if s.Continue? {
      JumpFieldsOnly(c, CONTINUE, cur, at, loop, p'.loop, d);
    }
  }

  lemma JumpFieldsOnly(c: Config, op: Opcode, cur: State, at: nat, loop: Option<nat>, loop': Option<nat>, d: nat)
    requires op == BREAK || op == CONTINUE
    ensures var a, b := BreakInsn(c, op, cur, at, loop, d), BreakInsn(c, op, cur, at, loop', d);
            IsJumpOut(a) && a == b.(fields := a.fields)
  {
    hide BreakDistance;
  }

  /** HALT is not among the calls of a structured program. */
  lemma {:induction false} NoHalt(c: Config, p: Place, patched: bool, i: nat)
    requires i < Length(c, p.s)
    ensures At(c, p, patched, i).op != HALT
    decreases p.s
  {
    hide Locate, Length;
    match Locate(c, p, patched, i)
    case Own(_) => OwnInsn(c, p, patched, i);
    case Inner(q, j) => NoHalt(c, q, patched, j);
  }

  /** An emitted program has a loop for every BREAK and CONTINUE, if the structured program has. */
  lemma EmittedJumpsHaveLoops(c: Config, s: Stmt, cur: State, patched: bool)
    requires c.gen >= 6 && 2 * Length(c, s) < 0x8000 && !FreeJump(s)
    ensures JumpsHaveLoops(c, Code(c, s, cur, 0, None, 0, patched))
  {
    hide Code, At, LoopEnd, Length, FindLoopEnd, FreeJump;
    var p := Place(s, cur, 0, None, 0);
    var code := PlaceCode(c, p, patched);
    forall i | 0 <= i < |code| && IsJumpOut(code[i])
      ensures FindLoopEnd(c, code, i, i + 1) != i
    {
      CodeAt(c, p, patched, i);
      LoopAroundJump(c, p, patched, i);
      ScanFindsInnermost(c, s, cur, patched, i);
      LoopEndInside(c, p, i);
    }
  }

  /** Finishing an emitted program gives each BREAK and CONTINUE the UIP of its innermost loop, so
      that the code is the one with all jumps settled, up to the JIPs of BREAK, CONTINUE and ENDIF. */
  lemma FinishedIsSettled(c: Config, s: Stmt, cur: State, i: nat)
    requires c.gen >= 6 && 2 * Length(c, s) < 0x8000 && !FreeJump(s) && i < Length(c, s)
    ensures var code, settled := Code(c, s, cur, 0, None, 0, false), Code(c, s, cur, 0, None, 0, true);
            && SameButJip(Finished(c, code, i), settled[i])
            && (!IsJumpOut(code[i]) && code[i].op != ENDIF ==> Finished(c, code, i) == settled[i])
  {
    hide Code, At, LoopEnd, Length, FindLoopEnd, FreeJump, Short16, OpenIfs;
    var p := Place(s, cur, 0, None, 0);
    CodeAt(c, p, false, i);
    CodeAt(c, p, true, i);
    SettlingChangesJumps(c, p, p, i);
    NoHalt(c, p, false, i);
    if IsJumpOut(At(c, p, false, i)) {
      LoopAroundJump(c, p, false, i);
      ScanFindsInnermost(c, s, cur, false, i);
      JumpsOut(c, p, false, i);
      JumpsOut(c, p, true, i);
    }
  }

  /** The UIPs spelt out: to the innermost WHILE, for a BREAK on gen6 to just past it. */
  lemma FinishedJumpsOut(c: Config, s: Stmt, cur: State, i: nat, w: nat)
    requires c.gen >= 6 && 2 * (Length(c, s) + 1) < 0x8000 && i < Length(c, s) && LoopEnd(c, s, 0, i) == Some(w)
    ensures var insn := Finished(c, Code(c, s, cur, 0, None, 0, false), i);
            && (insn.op == BREAK ==> insn.fields.uip == 2 * (w - i + if c.gen == 6 then 1 else 0))
            && (insn.op == CONTINUE ==> insn.fields.uip == 2 * (w - i))
  {
    hide Code, LoopEnd, Length, FindLoopEnd, Short16;
    ScanFindsInnermost(c, s, cur, false, i);
    LoopEndInside(c, Place(s, cur, 0, None, 0), i);
    Short16Fits(2 * (w - i));
    Short16Fits(2 * (w - i + 1));
  }
}
